/** The identity of a supervised process, shared by the supervisor, the reaper and the fleet. */
module Keys {

  datatype Side = Backend | Frontend

  /** `peer` is the deploy's backend hash on a process-mode frontend, and empty otherwise. */
  datatype Key = Key(repo: int, side: Side, hash: string, peer: string)

  function BackendKey(repo: int, hash: string): Key {
    Key(repo, Backend, hash, "")
  }

  /** True of a process-mode frontend that is paired with a backend. */
  predicate HasPeer(k: Key) {
    k.side == Frontend && k.peer != ""
  }

  /** The backend a paired frontend talks to. */
  function PeerOf(k: Key): Key {
    BackendKey(k.repo, k.peer)
  }
}

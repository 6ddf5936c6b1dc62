/**
 The Persister: a server's saved Raft state and snapshot. Copies share the byte arrays
 with the original; this is safe because Save never writes into an array but replaces it.
 */
module Persister {

  newtype Byte = x: int | 0 <= x < 256

  datatype Image = Image(raftstate: seq<Byte>, snapshot: seq<Byte>)

  method Clone(orig: array<Byte>) returns (x: array<Byte>)
    ensures fresh(x) && x[..] == orig[..]
  {
    x := new Byte[orig.Length](i requires 0 <= i < orig.Length reads orig => orig[i]);
    assert x[..] == orig[..];
  }

  class Persister {
    var raftstate: array<Byte>
    var snapshot: array<Byte>

    function Contents(): (s: Image)
      reads this, raftstate, snapshot
    {
      Image(raftstate[..], snapshot[..])
    }

    constructor ()
      ensures fresh(raftstate) && fresh(snapshot)
      ensures Contents() == Image([], [])
    {
      raftstate, snapshot := new Byte[0], new Byte[0];
    }

    constructor Sharing(raftstate: array<Byte>, snapshot: array<Byte>)
      ensures this.raftstate == raftstate && this.snapshot == snapshot
    {
      this.raftstate, this.snapshot := raftstate, snapshot;
    }

    /** A second Persister on the same arrays. */
    method Copy() returns (np: Persister)
      ensures fresh(np) && np.raftstate == raftstate && np.snapshot == snapshot
      ensures np.Contents() == Contents()
    {
      np := new Persister.Sharing(raftstate, snapshot);
    }

    /** Replaces both parts at once with fresh arrays; no existing array is written. */
    method Save(raftstate: array<Byte>, snapshot: array<Byte>)
      modifies this
      ensures fresh(this.raftstate) && fresh(this.snapshot)
      ensures Contents() == Image(raftstate[..], snapshot[..])
    {
      var r := Clone(raftstate);
      var s := Clone(snapshot);
      this.raftstate, this.snapshot := r, s;
    }

    method ReadRaftState() returns (r: array<Byte>)
      ensures fresh(r) && r[..] == Contents().raftstate
    {
      r := Clone(raftstate);
    }

    method ReadSnapshot() returns (r: array<Byte>)
      ensures fresh(r) && r[..] == Contents().snapshot
    {
      r := Clone(snapshot);
    }
  }

  /**
   Shutdown takes a copy; whatever the old instance saves afterwards goes into its own
   Persister and leaves the copy as it was, although the two started on the same arrays.
   */
  method CopySurvivesLaterSaves(ps: Persister, raftstates: seq<array<Byte>>, snapshots: seq<array<Byte>>) returns (np: Persister)
    requires |raftstates| == |snapshots|
    modifies ps
    ensures fresh(np) && np.Contents() == old(ps.Contents())
    ensures |raftstates| > 0 ==>
      ps.Contents() == Image(raftstates[|raftstates| - 1][..], snapshots[|snapshots| - 1][..])
    ensures |raftstates| == 0 ==> ps.Contents() == old(ps.Contents())
  {
    np := ps.Copy();
    for i := 0 to |raftstates|
      invariant np.Contents() == old(ps.Contents())
      invariant i == 0 ==> ps.Contents() == old(ps.Contents())
      invariant i > 0 ==> ps.Contents() == Image(raftstates[i - 1][..], snapshots[i - 1][..])
    {
      ps.Save(raftstates[i], snapshots[i]);
    }
  }
}

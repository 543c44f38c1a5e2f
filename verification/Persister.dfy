/** Stable storage: the buffer that survives a crash. */
module Storage {
  newtype byte = b: int | 0 <= b < 256

  class Persister {
    var raftstate: array<byte>

    ghost function Bytes(): seq<byte>
      reads this, raftstate
    {
      raftstate[..]
    }

    constructor ()
      ensures fresh(raftstate) && Bytes() == []
    {
      raftstate := new byte[0];
    }

    static method Clone(orig: array<byte>) returns (x: array<byte>)
      ensures fresh(x) && x[..] == orig[..]
    {
      x := new byte[orig.Length];
      for i := 0 to orig.Length
        invariant x[..i] == orig[..i]
      {
        x[i] := orig[i];
      }
      assert x[..] == x[..orig.Length] == orig[..orig.Length] == orig[..];
    }

    /** The saved state gets a buffer of its own: neither the caller's buffer nor
        one that a copy of this persister still holds is written. */
    method SaveRaftState(state: array<byte>)
      modifies this
      ensures fresh(raftstate) && Bytes() == state[..]
    {
      raftstate := Clone(state);
    }

    method ReadRaftState() returns (data: array<byte>)
      ensures fresh(data) && data[..] == Bytes()
    {
      data := Clone(raftstate);
    }

    /** A copy shares the buffer, which is safe because no method writes into one. */
    method Copy() returns (np: Persister)
      ensures fresh(np) && np.raftstate == raftstate && np.Bytes() == Bytes()
    {
      np := new Persister();
      np.raftstate := raftstate;
    }
  }

  /** What a crash does to storage: the new incarnation gets a copy that holds
      the last saved state, and whatever the old incarnation still saves afterwards
      cannot reach it. */
  method Supersede(previous: Persister, late: array<byte>) returns (np: Persister)
    modifies previous
    ensures fresh(np) && np.Bytes() == old(previous.Bytes())
    ensures previous.Bytes() == late[..]
  {
    np := previous.Copy();
    previous.SaveRaftState(late);
  }
}

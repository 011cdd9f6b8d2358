/** Where the first stage gets its bytes from. */
module Source {
  import opened Types

  /** The input file, read in pieces of any size or copied from the preloading buffer. */
  class Input {
    const data: Bytes
    const preloading: bool
    var seek: nat   // file offset, or preloading_buffer_seek

    constructor (data: Bytes, preloading: bool)
      ensures this.data == data && this.preloading == preloading && seek == 0
    {
      this.data, this.preloading := data, preloading;
      seek := 0;
    }

    /** The seek position never passes the end of the file. */
    ghost predicate Valid()
      reads this
    {
      seek <= |data|
    }

    ghost function Unread(): Bytes
      requires Valid()
      reads this
    {
      data[seek..]
    }

    /** read(): any positive number of the bytes asked for, and 0 at the end of the file only. */
    method Read(n: nat) returns (got: Bytes)
      requires Valid() && n > 0
      modifies this
      ensures Valid() && got + Unread() == old(Unread())
      ensures |got| <= n && (got == [] <==> old(Unread()) == [])
    {
      if seek == |data| {
        return [];
      }
      var r: nat :| 1 <= r <= n && r <= |data| - seek;
      got := data[seek..seek + r];
      seek := seek + r;
    }

    /** Reads until `maxbuf` bytes are there or the file ends. However the bytes are delivered, the
        result is the same prefix of what was unread. */
    method Fill(maxbuf: nat) returns (got: Bytes)
      requires Valid() && maxbuf > 0
      modifies this
      ensures Valid() && got + Unread() == old(Unread())
      ensures |got| == Min(maxbuf, |old(Unread())|)
    {
      if preloading {
        var maxRead := Min(maxbuf, |data| - seek);
        got := data[seek..seek + maxRead];
        seek := seek + maxRead;
      } else {
        got := [];
        var atEnd := false;
        while |got| < maxbuf && !atEnd
          invariant Valid() && |got| <= maxbuf
          invariant got + Unread() == old(Unread())
          invariant atEnd ==> Unread() == []
          decreases !atEnd, maxbuf - |got|
        {
          ghost var sofar := got;
          var r := Read(maxbuf - |got|);
          if r == [] {
            atEnd := true;
          }
          got := got + r;
          assert got + Unread() == sofar + (r + Unread());
        }
      }
    }
  }
}

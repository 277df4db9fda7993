/** The fixed-size sliding buffer of server/water/net/buffered_connection.cpp. */
module ConnectionBuffers {
  import opened Bytes

  class ConnectionBuffer {
    const buf: array<byte>
    var dataBegin: nat
    var dataEnd: nat

    /** An emptied buffer is rewound, so emptiness can be read off dataEnd alone. */
    ghost predicate Valid()
      reads this
    {
      dataBegin <= dataEnd <= buf.Length && (dataBegin == dataEnd ==> dataBegin == 0)
    }

    /** The bytes written and not yet read. */
    ghost function Contents(): seq<byte>
      requires Valid()
      reads this, buf
    {
      buf[dataBegin..dataEnd]
    }

    constructor (sizeLimit: nat)
      ensures Valid() && fresh(buf) && buf.Length == sizeLimit && Contents() == []
    {
      buf := new byte[sizeLimit];
      dataBegin, dataEnd := 0, 0;
    }

    predicate Full()
      reads this
    {
      buf.Length == dataEnd && dataBegin == 0
    }

    predicate Empty(): (e: bool)
      requires Valid()
      reads this, buf
      ensures e <==> Contents() == []
    {
      dataEnd == 0
    }

    method Readable() returns (view: seq<byte>)
      requires Valid()
      ensures view == Contents()
    {
      view := buf[dataBegin..dataEnd];
    }

    /** Take `size` bytes off the front, or refuse if there are not that many. */
    method CommitRead(size: nat) returns (ok: bool)
      requires Valid()
      modifies this
      ensures Valid()
      ensures ok <==> size <= |old(Contents())|
      ensures Contents() == if ok then old(Contents())[size..] else old(Contents())
    {
      if dataEnd - dataBegin < size { return false; }
      dataBegin := dataBegin + size;
      if dataBegin == dataEnd {
        dataBegin := 0;
        dataEnd := 0;
      }
      ok := true;
    }

    /** Make room for `size` bytes at the tail, sliding the data to the front when the tail is short;
        answers how many bytes may be written. */
    method Writeable(size: nat) returns (room: nat)
      requires Valid()
      modifies this, buf
      ensures Valid() && Contents() == old(Contents())
      ensures room <= buf.Length - dataEnd
      ensures room == 0 <==> |Contents()| == buf.Length
      ensures |Contents()| + size <= buf.Length ==> room >= size
      ensures old(dataEnd) + size <= buf.Length && old(dataEnd) < buf.Length ==>
        dataBegin == old(dataBegin) && dataEnd == old(dataEnd) && room == buf.Length - dataEnd
    {
      room := 0;
      if buf.Length - dataEnd < size || buf.Length == dataEnd {
        if Full() { return; }
        var dataSize := dataEnd - dataBegin;
        ghost var was := Contents();
        for k := 0 to dataSize
          invariant dataBegin == old(dataBegin) && dataEnd == old(dataEnd) && Valid()
          invariant forall m | 0 <= m < k :: buf[m] == was[m]
          invariant forall m | k <= m < dataSize :: buf[dataBegin + m] == was[m]
        {
          buf[k] := buf[dataBegin + k];
        }
        dataBegin := 0;
        dataEnd := dataSize;
        assert Contents() == was;
      }
      room := buf.Length - dataEnd;
    }

    /** What a writer does with the tail it was given: bytes land behind the data and are not yet part of it. */
    method WriteTail(data: seq<byte>)
      requires Valid() && dataEnd + |data| <= buf.Length
      modifies buf
      ensures Valid() && Contents() == old(Contents())
      ensures buf[dataEnd..dataEnd + |data|] == data
    {
      for k := 0 to |data|
        invariant forall m | dataBegin <= m < dataEnd :: buf[m] == old(buf[m])
        invariant buf[dataEnd..dataEnd + k] == data[..k]
      {
        buf[dataEnd + k] := data[k];
      }
    }

    /** Admit `size` tail bytes into the data, or refuse if the tail is shorter. */
    method CommitWrite(size: nat) returns (ok: bool)
      requires Valid()
      modifies this
      ensures Valid()
      ensures ok <==> size <= buf.Length - old(dataEnd)
      ensures Contents() == old(Contents()) + (if ok then old(buf[dataEnd..dataEnd + size]) else [])
    {
      if buf.Length - dataEnd < size { return false; }
      dataEnd := dataEnd + size;
      ok := true;
    }
  }
}

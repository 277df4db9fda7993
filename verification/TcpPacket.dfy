/** Length-prefixed packets and their incremental parser (server/water/net/packet.cpp, tcp_packet.cpp). */
module TcpPackets {
  import opened Bytes

  const HEAD_SIZE := 4
  const SIZE_LIMIT := 0x1_0000_0000  // SizeType is uint32_t

  /** The length word at the front of a packet. */
  function Header(bytes: seq<byte>): nat
    requires |bytes| >= HEAD_SIZE
  {
    LeValue(bytes[..HEAD_SIZE])
  }

  /** What `setContent` lays out for a content of the given bytes. */
  function Frame(content: seq<byte>): seq<byte> { Le(|content|, HEAD_SIZE) + content }

  /** The largest content whose packet length still fits SizeType. */
  predicate Fits(content: seq<byte>) { |content| <= SIZE_LIMIT - 5 }

  predicate IsComplete(bytes: seq<byte>) {
    |bytes| >= HEAD_SIZE && Header(bytes) + HEAD_SIZE <= |bytes|
  }

  class Packet {
    var buf: seq<byte>

    constructor ()
      ensures buf == []
    {
      buf := [];
    }

    constructor FromBytes(data: seq<byte>)
      ensures buf == data
    {
      buf := data;
    }

    method Append(data: seq<byte>) returns (size: nat)
      modifies this
      ensures buf == old(buf) + data && size == |data|
    {
      buf := buf + data;
      size := |data|;
    }

    /** Drop the first `size` bytes, or all of them if there are no more. */
    method Pop(size: nat)
      modifies this
      ensures buf == if size >= |old(buf)| then [] else old(buf)[size..]
    {
      if size >= |buf| { buf := []; return; }
      buf := buf[size..];
    }

    /** The bytes that fit into maxSize bytes of output. */
    method Copy(maxSize: nat) returns (out: seq<byte>)
      ensures out <= buf && |out| == if maxSize < |buf| then maxSize else |buf|
    {
      var copySize := if maxSize < |buf| then maxSize else |buf|;
      out := buf[..copySize];
    }

    /** The content's size is passed, and the packet's computed, in SizeType.  Where the latter wraps, the content is
        copied past the end of the buffer, which `inside` denies. */
    method SetContent(content: seq<byte>) returns (inside: bool)
      modifies this
      ensures var size := |content| % SIZE_LIMIT;
        (inside <==> size <= SIZE_LIMIT - 5) && (inside ==> buf == Frame(content[..size]))
      ensures Fits(content) ==> inside && buf == Frame(content)
    {
      var contentSize := |content| % SIZE_LIMIT;
      var packetSize := (HEAD_SIZE + contentSize) % SIZE_LIMIT;
      inside := HEAD_SIZE + contentSize <= packetSize;
      if inside {
        buf := Le(contentSize, HEAD_SIZE) + content[..contentSize];
        assert |buf| == packetSize;
        assert Fits(content) ==> content[..contentSize] == content;
      }
    }

    predicate Complete()
      reads this
      ensures Complete() == IsComplete(buf)
    {
      |buf| >= HEAD_SIZE && Header(buf) + HEAD_SIZE <= |buf|
    }

    /** Take from `data` what this packet still lacks; answers how many bytes were taken.  Packet
        lengths are computed in SizeType and wrap. */
    method Parse(data: seq<byte>) returns (taken: nat)
      modifies this
      ensures taken == ParseSize(old(buf), data)
      ensures taken <= |data| && buf == old(buf) + data[..taken]
    {
      ParseSizeBound(buf, data);
      if Complete() { return 0; }
      if |buf| == 0 {
        if |data| < HEAD_SIZE { return 0; }
        var readLen := (Header(data) + HEAD_SIZE) % SIZE_LIMIT;
        if readLen > |data| { readLen := |data|; }
        buf := data[..readLen];
        return readLen;
      }
      var headerAppendLen := 0;
      var rest := data;
      if |buf| < HEAD_SIZE {
        if |data| < HEAD_SIZE - |buf| { return 0; }
        headerAppendLen := Append(data[..HEAD_SIZE - |buf|]);
        rest := data[headerAppendLen..];
      }
      HeaderBound(buf);
      var completeSize := (Header(buf) + HEAD_SIZE) % SIZE_LIMIT;
      var deficiencySize := (completeSize - |buf|) % SIZE_LIMIT;
      var appendLen := if deficiencySize < |rest| then deficiencySize else |rest|;
      var _ := Append(rest[..appendLen]);
      taken := headerAppendLen + appendLen;
      assert data[..headerAppendLen] + data[headerAppendLen..][..appendLen] == data[..taken];
    }
  }

  function Min(a: nat, b: nat): nat { if a < b then a else b }

  /** How many of the offered bytes a packet holding `have` takes. */
  function ParseSize(have: seq<byte>, data: seq<byte>): nat {
    if IsComplete(have) then 0
    else if |have| + |data| < HEAD_SIZE then 0
    else if |have| == 0 then Min((Header(data) + HEAD_SIZE) % SIZE_LIMIT, |data|)
    else if |have| < HEAD_SIZE then
      var head := data[..HEAD_SIZE - |have|];
      |head| + Min(Header(have + head), |data| - |head|)
    else Min(((Header(have) + HEAD_SIZE) % SIZE_LIMIT - |have|) % SIZE_LIMIT, |data|)
  }

  lemma HeaderBound(bytes: seq<byte>)
    requires |bytes| >= HEAD_SIZE
    ensures Header(bytes) < SIZE_LIMIT
    ensures ((Header(bytes) + HEAD_SIZE) % SIZE_LIMIT - HEAD_SIZE) % SIZE_LIMIT == Header(bytes)
  {
    LeValueBound(bytes[..HEAD_SIZE]);
    Pow256Of4();
  }

  lemma ParseSizeBound(have: seq<byte>, data: seq<byte>)
    ensures ParseSize(have, data) <= |data|
  {}

  /** A packet that is empty or holds its whole header, which is all the parser ever leaves behind. */
  predicate HeaderWhole(bytes: seq<byte>) { |bytes| == 0 || |bytes| >= HEAD_SIZE }

  /** As long as the announced length fits SizeType, one parse takes exactly what the packet lacks. */
  lemma ParseTakesWhatIsMissing(have: seq<byte>, data: seq<byte>)
    requires !IsComplete(have) && HeaderWhole(have) && |have| + |data| >= HEAD_SIZE
    requires Header(have + data) + HEAD_SIZE < SIZE_LIMIT
    ensures Header(have + data) + HEAD_SIZE > |have|
    ensures ParseSize(have, data) == Min(Header(have + data) + HEAD_SIZE - |have|, |data|)
    ensures |data| > 0 ==> ParseSize(have, data) > 0
    ensures HeaderWhole(have + data[..ParseSize(have, data)])
  {
    if have == [] {
      assert have + data == data;
    } else {
      assert (have + data)[..HEAD_SIZE] == have[..HEAD_SIZE];
    }
  }

  /** On a fresh packet and enough bytes for a header, the parser keeps the header whole exactly when the
      announced length fits SizeType; past that the length wraps and the parser takes fewer than four bytes. */
  lemma FreshParseWholeIff(data: seq<byte>)
    requires |data| >= HEAD_SIZE
    ensures ParseSize([], data) >= HEAD_SIZE <==> Header(data) + HEAD_SIZE < SIZE_LIMIT
  {
    LeValueBound(data[..HEAD_SIZE]);
    Pow256Of4();
  }

  /** A frame is parsed whole in one go exactly if its content is shorter than 2^32 - 4 bytes. */
  lemma FrameParsedWholeIff(content: seq<byte>)
    requires |content| < 0x1_0000_0000
    ensures ParseSize([], Frame(content)) == |Frame(content)| <==> |content| + 4 < 0x1_0000_0000
    ensures Fits(content) <==> |content| + 4 < 0x1_0000_0000
  {
    var frame := Frame(content);
    Pow256Of4();
    LeRoundTrip(|content|, HEAD_SIZE);
    assert frame[..HEAD_SIZE] == Le(|content|, HEAD_SIZE);
    FreshParseWholeIff(frame);
  }

  lemma FrameHeader(content: seq<byte>, rest: seq<byte>)
    requires Fits(content)
    ensures |Frame(content) + rest| >= HEAD_SIZE && Header(Frame(content) + rest) == |content|
  {
    LeRoundTrip(|content|, HEAD_SIZE);
    Pow256Of4();
    assert (Frame(content) + rest)[..HEAD_SIZE] == Le(|content|, HEAD_SIZE);
  }

  // ---------------------------------------------------------------- a stream of frames

  function Frames(contents: seq<seq<byte>>): (f: seq<seq<byte>>)
    ensures |f| == |contents| && forall i | 0 <= i < |f| :: f[i] == Frame(contents[i])
  {
    if contents == [] then [] else [Frame(contents[0])] + Frames(contents[1..])
  }

  ghost predicate AllFit(contents: seq<seq<byte>>) { forall c | c in contents :: Fits(c) }

  /** The reader has completed exactly the first frames and holds a proper beginning of the next one,
      never one that stops inside the header. */
  ghost predicate Framed(contents: seq<seq<byte>>, delivered: seq<seq<byte>>, partial: seq<byte>) {
    && |delivered| <= |contents|
    && delivered == Frames(contents)[..|delivered|]
    && HeaderWhole(partial)
    && if |delivered| == |contents| then partial == [] else partial < Frame(contents[|delivered|])
  }

  lemma StreamAhead(contents: seq<seq<byte>>, delivered: seq<seq<byte>>, more: seq<byte>)
    requires |delivered| < |contents| && delivered == Frames(contents)[..|delivered|]
    requires Concat(delivered) + more <= Concat(Frames(contents))
    ensures more <= Frame(contents[|delivered|]) + Concat(Frames(contents)[|delivered| + 1..])
  {
    var k, f := |delivered|, Frames(contents);
    assert f == f[..k] + f[k..];
    ConcatAppend(f[..k], f[k..]);
    assert f[k..][0] == Frame(contents[k]) && f[k..][1..] == f[k + 1..];
    assert Concat(f) == Concat(delivered) + Concat(f[k..]);
    assert more == (Concat(delivered) + more)[|Concat(delivered)|..];
  }

  lemma StreamDone(contents: seq<seq<byte>>, delivered: seq<seq<byte>>, more: seq<byte>)
    requires |delivered| == |contents| && delivered == Frames(contents)[..|delivered|]
    requires Concat(delivered) + more <= Concat(Frames(contents))
    ensures more == []
  {
    assert delivered == Frames(contents);
  }

  /** One parse against the frame of `content` that the stream continues with. */
  lemma ParseOneFrame(content: seq<byte>, partial: seq<byte>, data: seq<byte>, rest: seq<byte>)
    requires Fits(content) && HeaderWhole(partial) && partial < Frame(content)
    requires partial + data <= Frame(content) + rest
    ensures var taken := ParseSize(partial, data);
      && taken <= |data|
      && var next := partial + data[..taken];
      if IsComplete(next) then next == Frame(content)
      else next < Frame(content) && HeaderWhole(next) && (taken == |data| || (next == [] && |data| < HEAD_SIZE))
  {
    var frame := Frame(content);
    hide LeValue, Le;
    ParseSizeBound(partial, data);
    FrameHeader(content, []);
    assert frame + [] == frame;
    if |partial| >= HEAD_SIZE { assert partial[..HEAD_SIZE] == frame[..HEAD_SIZE]; }
    if |partial| + |data| >= HEAD_SIZE {
      assert (partial + data)[..HEAD_SIZE] == (frame + rest)[..HEAD_SIZE] == frame[..HEAD_SIZE];
      ParseTakesWhatIsMissing(partial, data);
      var next := partial + data[..ParseSize(partial, data)];
      assert |next| == Min(|frame|, |partial + data|);
      assert next == (partial + data)[..|next|] == (frame + rest)[..|next|] == frame[..|next|];
      assert next[..HEAD_SIZE] == frame[..HEAD_SIZE];
    }
  }

  /** One parse of available data completes the next frame if it is all there, and otherwise takes all
      the data except a piece of header too short to read. */
  lemma ParseKeepsFramed(contents: seq<seq<byte>>, delivered: seq<seq<byte>>, partial: seq<byte>, data: seq<byte>)
    requires AllFit(contents) && Framed(contents, delivered, partial)
    requires Concat(delivered) + (partial + data) <= Concat(Frames(contents))
    ensures var taken := ParseSize(partial, data);
      && taken <= |data|
      && var next := partial + data[..taken];
      if IsComplete(next) then |delivered| < |contents| && next == Frame(contents[|delivered|])
      else Framed(contents, delivered, next) && (taken == |data| || (next == [] && |data| < HEAD_SIZE))
  {
    hide LeValue, Le, Concat;
    if |delivered| == |contents| {
      StreamDone(contents, delivered, partial + data);
      assert data == [] && partial == [];
    } else {
      var content := contents[|delivered|];
      StreamAhead(contents, delivered, partial + data);
      ParseOneFrame(content, partial, data, Concat(Frames(contents)[|delivered| + 1..]));
    }
  }

  lemma TakeOneMore<T>(s: seq<T>, k: nat)
    requires k < |s|
    ensures s[..k + 1] == s[..k] + [s[k]]
  {}

  /** Complete frames leave the stream aligned on the next one. */
  lemma DeliverKeepsFramed(contents: seq<seq<byte>>, delivered: seq<seq<byte>>)
    requires |delivered| < |contents| && delivered == Frames(contents)[..|delivered|]
    ensures Framed(contents, delivered + [Frame(contents[|delivered|])], [])
  {
    hide LeValue, Le, Concat, Pow256, Frames;
    var k := |delivered|;
    TakeOneMore(Frames(contents), k);
    assert [] <= Frame(contents[k]);
    if k + 1 < |contents| { assert [] < Frame(contents[k + 1]); }
  }

  /** One turn of a reader: parse the data, and deliver the packet if that completed it. */
  lemma {:induction false} TurnKeepsFramed(contents: seq<seq<byte>>, delivered: seq<seq<byte>>, partial: seq<byte>,
                                           data: seq<byte>)
    requires AllFit(contents) && Framed(contents, delivered, partial)
    requires Concat(delivered) + (partial + data) <= Concat(Frames(contents))
    ensures var taken := ParseSize(partial, data);
      && taken <= |data|
      && var next := partial + data[..taken];
      if IsComplete(next) then Framed(contents, delivered + [next], [])
      else Framed(contents, delivered, next) && (data[taken..] == [] || (next == [] && |data| < HEAD_SIZE))
  {
    ParseKeepsFramed(contents, delivered, partial, data);
    hide ParseSize, Concat, Frame;
    if IsComplete(partial + data[..ParseSize(partial, data)]) { DeliverKeepsFramed(contents, delivered); }
  }

  /** The peer sends frames, and the reader is aligned on them. */
  ghost predicate OnTrack(contents: seq<seq<byte>>, delivered: seq<seq<byte>>, partial: seq<byte>, stream: seq<byte>) {
    AllFit(contents) && Framed(contents, delivered, partial) && stream <= Concat(Frames(contents))
  }

  /** Nothing is left to parse but a piece of header too short to read. */
  ghost predicate AllParsed(partial: seq<byte>, data: seq<byte>) {
    data == [] || (partial == [] && |data| < HEAD_SIZE)
  }

  lemma TurnOnTrack(contents: seq<seq<byte>>, delivered: seq<seq<byte>>, partial: seq<byte>, data: seq<byte>,
                    tail: seq<byte>)
    requires OnTrack(contents, delivered, partial, Concat(delivered) + partial + data + tail)
    ensures var taken := ParseSize(partial, data);
      && taken <= |data|
      && var next := partial + data[..taken];
      if IsComplete(next) then Framed(contents, delivered + [next], [])
      else Framed(contents, delivered, next) && AllParsed(next, data[taken..])
  {
    hide Concat, Framed, AllFit, ParseSize, Frames;
    var before := Concat(delivered) + (partial + data);
    assert Concat(delivered) + partial + data + tail == before + tail;
    assert before <= before + tail;
    TurnKeepsFramed(contents, delivered, partial, data);
  }

  /** The same turn on any bytes keeps them all, in order. */
  lemma TurnKeepsBytes(delivered: seq<seq<byte>>, partial: seq<byte>, data: seq<byte>, taken: nat, tail: seq<byte>)
    requires taken <= |data|
    ensures var next := partial + data[..taken];
      && Concat(delivered) + next + data[taken..] + tail == Concat(delivered) + partial + data + tail
      && Concat(delivered + [next]) + [] + data[taken..] + tail == Concat(delivered) + partial + data + tail
  {
    var next := partial + data[..taken];
    ConcatAppend(delivered, [next]);
    ConcatOne(next);
    assert data == data[..taken] + data[taken..];
  }

  lemma {:induction false} PrefixLengths(frames: seq<seq<byte>>, j: nat, k: nat)
    requires j <= k <= |frames|
    ensures |Concat(frames[..j])| <= |Concat(frames[..k])|
  {
    assert frames[..k] == frames[..j] + frames[j..k];
    ConcatAppend(frames[..j], frames[j..k]);
  }

  /** With nothing but a piece of header left unread, the completed frames are exactly those whose last
      byte has arrived. */
  lemma DeliveredExactly(contents: seq<seq<byte>>, delivered: seq<seq<byte>>, partial: seq<byte>, unread: seq<byte>,
                         k: nat)
    requires AllFit(contents) && Framed(contents, delivered, partial) && k <= |contents|
    requires Concat(delivered) + partial + unread <= Concat(Frames(contents))
    requires unread == [] || (partial == [] && |unread| < HEAD_SIZE)
    ensures k <= |delivered| <==> |Concat(Frames(contents)[..k])| <= |Concat(delivered) + partial + unread|
  {
    var f, n := Frames(contents), |delivered|;
    if n < |contents| { assert |f[n]| >= HEAD_SIZE; }
    hide Concat, Frame, Frames, AllFit;
    if k <= n {
      PrefixLengths(f, k, n);
    } else {
      NextLength(f, n, k);
    }
  }

  lemma NextLength(frames: seq<seq<byte>>, n: nat, k: nat)
    requires n < k <= |frames|
    ensures |Concat(frames[..n])| + |frames[n]| <= |Concat(frames[..k])|
  {
    PrefixLengths(frames, n + 1, k);
    assert frames[..n + 1] == frames[..n] + [frames[n]];
    ConcatAppend(frames[..n], [frames[n]]);
    ConcatOne(frames[n]);
    hide Concat;
  }

  /** So a reader that has parsed all it could has delivered just the frames that have wholly arrived. */
  ghost predicate DeliversArrived(contents: seq<seq<byte>>, delivered: seq<seq<byte>>, arrived: seq<byte>) {
    forall k | 0 <= k <= |contents| :: k <= |delivered| <==> |Concat(Frames(contents)[..k])| <= |arrived|
  }

  lemma OnTrackDelivers(contents: seq<seq<byte>>, delivered: seq<seq<byte>>, partial: seq<byte>, unread: seq<byte>,
                        tail: seq<byte>)
    requires OnTrack(contents, delivered, partial, Concat(delivered) + partial + unread + tail)
    requires AllParsed(partial, unread)
    ensures DeliversArrived(contents, delivered, Concat(delivered) + partial + unread)
  {
    var arrived := Concat(delivered) + partial + unread;
    assert arrived <= arrived + tail;
    hide Concat, Frames, Framed, AllFit;
    forall k | 0 <= k <= |contents|
      ensures k <= |delivered| <==> |Concat(Frames(contents)[..k])| <= |arrived|
    {
      DeliveredExactly(contents, delivered, partial, unread, k);
    }
  }
}

/** The recursive container serializer of serialize.h over the bounded buffer of raw_buffer.cpp.

    A value in memory is described by its type's shape.  A container is the sequence in which iterating
    over it yields its elements; how unordered containers choose that order is not modelled. */
module Serialization {
  import opened Bytes

  const COUNT_BYTES: nat := 8
  const LENGTH_LIMIT: nat := 0x1_0000_0000

  datatype Value =
    | Plain(bytes: seq<byte>)
    | Str(chars: seq<byte>)
    | Pair(first: Value, second: Value)
    | Items(items: seq<Value>)

  /** ListT stands for every container that keeps all elements at the end where they are inserted
      (list, deque, multiset, unordered_multiset, multimap, unordered_multimap). */
  datatype Type =
    | PlainT(size: nat)
    | StringT
    | PairT(first: Type, second: Type)
    | VectorT(elem: Type)
    | ListT(elem: Type)
    | SetT(elem: Type)
    | MapT(elem: Type)
    | ForwardListT(elem: Type)
  {
    predicate Container() { VectorT? || ListT? || SetT? || MapT? || ForwardListT? }
  }

  /** A map's entries are pairs whose key is trivially copyable: the reader gets at the key through a
      const reference, which only the overload for such types accepts. */
  predicate WellFormed(t: Type) {
    match t
    case PlainT(n) => n > 0
    case StringT => true
    case PairT(a, b) => WellFormed(a) && WellFormed(b)
    case MapT(e) => WellFormed(e) && e.PairT? && e.first.PlainT?
    case _ => WellFormed(t.elem)
  }

  ghost predicate HasType(v: Value, t: Type)
    decreases v
  {
    match t
    case PlainT(n) => v.Plain? && |v.bytes| == n
    case StringT => v.Str? && |v.chars| < Pow256(COUNT_BYTES)
    case PairT(a, b) => v.Pair? && HasType(v.first, a) && HasType(v.second, b)
    case _ =>
      && v.Items? && |v.items| < Pow256(COUNT_BYTES)
      && (forall i | 0 <= i < |v.items| :: HasType(v.items[i], t.elem))
      && KeepsApart(t, v.items)
  }

  /** A set holds no element twice and a map no key twice. */
  ghost predicate KeepsApart(t: Type, items: seq<Value>) {
    && (t.SetT? ==> forall i, j | 0 <= i < j < |items| :: items[i] != items[j])
    && (t.MapT? ==> forall i, j | 0 <= i < j < |items| :: Key(items[i]) != Key(items[j]))
  }

  function Key(v: Value): Value { if v.Pair? then v.first else v }

  // ---------------------------------------------------------------- the encoding

  function Enc(v: Value): (s: seq<byte>)
    decreases v
  {
    match v
    case Plain(bytes) => bytes
    case Str(chars) => Le(|chars|, COUNT_BYTES) + chars
    case Pair(a, b) => Enc(a) + Enc(b)
    case Items(items) => Le(|items|, COUNT_BYTES) + EncAll(items)
  }

  function EncAll(items: seq<Value>): seq<byte>
    decreases items
  {
    if items == [] then [] else Enc(items[0]) + EncAll(items[1..])
  }

  /** A string or container is preceded by its length in eight bytes, the lowest first; nothing else is added. */
  lemma {:induction false} EncodedAs(v: Value)
    ensures match v
      case Plain(bytes) => Enc(v) == bytes
      case Str(chars) =>
        && |Enc(v)| == 8 + |chars| && Enc(v)[8..] == chars && Enc(v)[0] == |chars| % 256
        && (|chars| < Pow256(8) ==> LeValue(Enc(v)[..8]) == |chars|)
      case Pair(a, b) => Enc(v) == Enc(a) + Enc(b)
      case Items(items) =>
        && |Enc(v)| == 8 + |EncAll(items)| && Enc(v)[8..] == EncAll(items) && Enc(v)[0] == |items| % 256
        && (|items| < Pow256(8) ==> LeValue(Enc(v)[..8]) == |items|)
  {
    match v
    case Plain(_) =>
    case Pair(_, _) =>
    case Str(chars) =>
      assert Enc(v)[..8] == Le(|chars|, 8);
      if |chars| < Pow256(8) { LeRoundTrip(|chars|, 8); }
    case Items(items) =>
      assert Enc(v)[..8] == Le(|items|, 8);
      if |items| < Pow256(8) { LeRoundTrip(|items|, 8); }
  }

  /** The bytes that the writer really appends: the buffer takes a string's length as 32 bits. */
  function Emit(v: Value): seq<byte>
    decreases v
  {
    match v
    case Plain(bytes) => bytes[..|bytes| % LENGTH_LIMIT]
    case Str(chars) => Le(|chars|, COUNT_BYTES) + chars[..|chars| % LENGTH_LIMIT]
    case Pair(a, b) => Emit(a) + Emit(b)
    case Items(items) => Le(|items|, COUNT_BYTES) + EmitAll(items)
  }

  function EmitAll(items: seq<Value>): seq<byte>
    decreases items
  {
    if items == [] then [] else Emit(items[0]) + EmitAll(items[1..])
  }

  /** No string or plain object in v has 2^32 bytes or more. */
  ghost predicate Small(v: Value)
    decreases v
  {
    match v
    case Plain(bytes) => |bytes| < LENGTH_LIMIT
    case Str(chars) => |chars| < LENGTH_LIMIT
    case Pair(a, b) => Small(a) && Small(b)
    case Items(items) => SmallAll(items)
  }

  ghost predicate SmallAll(items: seq<Value>)
    decreases items
  {
    items == [] || (Small(items[0]) && SmallAll(items[1..]))
  }

  lemma CutIff(s: seq<byte>)
    ensures var cut := s[..|s| % LENGTH_LIMIT];
      |cut| <= |s| && (cut == s <==> |s| < LENGTH_LIMIT) && (|cut| == |s| ==> |s| < LENGTH_LIMIT)
  {}

  lemma JoinIff(x: seq<byte>, y: seq<byte>, x': seq<byte>, y': seq<byte>)
    requires |x| <= |x'| && |y| <= |y'|
    ensures x + y == x' + y' <==> x == x' && y == y'
  {
    if x + y == x' + y' {
      assert |x + y| == |x' + y'|;
      assert x == (x + y)[..|x|] && y == (x + y)[|x|..];
      assert x' == (x' + y')[..|x'|] && y' == (x' + y')[|x'|..];
    }
  }

  /** The appended bytes are the encoding exactly when no length is cut to 32 bits. */
  lemma {:induction false} EmitIsEncodingIff(v: Value)
    ensures |Emit(v)| <= |Enc(v)|
    ensures Emit(v) == Enc(v) <==> Small(v)
    ensures |Emit(v)| == |Enc(v)| ==> Small(v)
    decreases v
  {
    match v
    case Plain(bytes) => CutIff(bytes);
    case Str(chars) =>
      CutIff(chars);
      var length := Le(|chars|, COUNT_BYTES);
      JoinIff(length, chars[..|chars| % LENGTH_LIMIT], length, chars);
    case Pair(a, b) =>
      EmitIsEncodingIff(a);
      EmitIsEncodingIff(b);
      JoinIff(Emit(a), Emit(b), Enc(a), Enc(b));
    case Items(items) =>
      EmitAllIsEncodingIff(items);
      JoinIff(Le(|items|, COUNT_BYTES), EmitAll(items), Le(|items|, COUNT_BYTES), EncAll(items));
  }

  lemma {:induction false} EmitAllIsEncodingIff(items: seq<Value>)
    ensures |EmitAll(items)| <= |EncAll(items)|
    ensures EmitAll(items) == EncAll(items) <==> SmallAll(items)
    ensures |EmitAll(items)| == |EncAll(items)| ==> SmallAll(items)
    decreases items
  {
    if items == [] {
    } else {
      EmitIsEncodingIff(items[0]);
      EmitAllIsEncodingIff(items[1..]);
      JoinIff(Emit(items[0]), EmitAll(items[1..]), Enc(items[0]), EncAll(items[1..]));
    }
  }

  // ---------------------------------------------------------------- decoding

  /** Undefined: the source would read memory it does not own, or leave part of an object unset. */
  datatype Decoded = Undefined | Got(value: Value, next: nat)

  /** What a freshly made object of type t holds before anything is read into it. */
  function Blank(t: Type): (v: Value) {
    match t
    case PlainT(n) => Plain(seq(n, i => 0))
    case StringT => Str([])
    case PairT(a, b) => Pair(Blank(a), Blank(b))
    case _ => Items([])
  }

  function Min(a: nat, b: nat): nat { if a < b then a else b }

  function Left(data: seq<byte>, pos: nat): nat { if pos < |data| then |data| - pos else 0 }

  /** A count starts as zero and takes as many of its bytes as are left. */
  function Count(data: seq<byte>, pos: nat): (r: (nat, nat)) {
    var k := Min(COUNT_BYTES, Left(data, pos));
    (if k == 0 then 0 else LeValue(data[pos..pos + k]), pos + k)
  }

  /** What a container of type t holds after inserting x. */
  function Inserted(t: Type, acc: seq<Value>, x: Value): seq<Value> {
    if t.SetT? && x in acc then acc
    else if t.MapT? && exists i :: 0 <= i < |acc| && Key(acc[i]) == Key(x) then acc
    else acc + [x]
  }

  /** The object that element i is read into: a vector reuses the elements it already has. */
  function Target(t: Type, was: Value, i: nat): Value
    requires t.Container()
  {
    if t.VectorT? && was.Items? && i < |was.items| then was.items[i] else Blank(t.elem)
  }

  /** A forward list gets the elements read put before those it already had. */
  function Prepended(t: Type, items: seq<Value>, was: Value): seq<Value> {
    if t.ForwardListT? && was.Items? then items + was.items else items
  }

  function Finished(t: Type, r: Decoded, was: Value): (f: Decoded)
    ensures f.Undefined? <==> r.Undefined?
    ensures f.Got? ==> f.next == r.next
  {
    if r.Got? && r.value.Items? then Got(Items(Prepended(t, r.value.items, was)), r.next) else r
  }

  /** Reading a value of type t at `pos` into an object that holds `was`. */
  function Decode(t: Type, data: seq<byte>, pos: nat, was: Value): Decoded
    decreases t, 1, 0
  {
    match t
    case PlainT(n) =>
      if pos + n <= |data| then Got(Plain(data[pos..][..n]), pos + n) else Undefined
    case StringT =>
      var (n, p) := Count(data, pos);
      if p + n <= |data| then Got(Str(data[p..][..n]), p + n) else Undefined
    case PairT(a, b) =>
      if !was.Pair? then Undefined
      else
        var first := Decode(a, data, pos, was.first);
        if first.Undefined? then Undefined
        else
          var second := Decode(b, data, first.next, was.second);
          if second.Undefined? then Undefined else Got(Pair(first.value, second.value), second.next)
    case _ =>
      var (n, p) := Count(data, pos);
      Finished(t, DecodeItems(t, data, p, 0, n, [], was), was)
  }

  /** Reading elements i .. n-1; `acc` is what the container holds so far. */
  function DecodeItems(t: Type, data: seq<byte>, pos: nat, i: nat, n: nat, acc: seq<Value>, was: Value): (r: Decoded)
    requires t.Container()
    ensures r.Got? ==> r.value.Items?
    decreases t, 0, n - i
  {
    if i >= n then Got(Items(acc), pos)
    else
      var x := Decode(t.elem, data, pos, Target(t, was, i));
      if x.Undefined? then Undefined
      else DecodeItems(t, data, x.next, i + 1, n, Inserted(t, acc, x.value), was)
  }

  lemma DecodePair(a: Type, b: Type, data: seq<byte>, pos: nat, was: Value)
    requires Decode(PairT(a, b), data, pos, was).Got?
    ensures was.Pair? && Decode(a, data, pos, was.first).Got?
    ensures var first := Decode(a, data, pos, was.first);
      var second := Decode(b, data, first.next, was.second);
      second.Got? && Decode(PairT(a, b), data, pos, was) == Got(Pair(first.value, second.value), second.next)
  {}

  lemma DecodeContainer(t: Type, data: seq<byte>, pos: nat, was: Value)
    requires t.Container()
    ensures var (n, p) := Count(data, pos);
      var items := DecodeItems(t, data, p, 0, n, [], was);
      Decode(t, data, pos, was) ==
        if items.Got? then Got(Items(Prepended(t, items.value.items, was)), items.next) else Undefined
  {}

  /** `s` stands in `data` at `pos`. */
  ghost predicate At(data: seq<byte>, pos: nat, s: seq<byte>) {
    pos + |s| <= |data| && data[pos..][..|s|] == s
  }

  lemma AtSplit(data: seq<byte>, pos: nat, a: seq<byte>, b: seq<byte>)
    requires At(data, pos, a + b)
    ensures At(data, pos, a) && At(data, pos + |a|, b)
  {
    assert data[pos..][..|a + b|] == a + b;
    assert data[pos..][..|a|] == (a + b)[..|a|] == a;
    assert data[pos + |a|..][..|b|] == (a + b)[|a|..] == b;
  }

  lemma CountAt(data: seq<byte>, pos: nat, n: nat)
    requires At(data, pos, Le(n, COUNT_BYTES)) && n < Pow256(COUNT_BYTES)
    ensures Count(data, pos) == (n, pos + COUNT_BYTES)
  {
    LeRoundTrip(n, COUNT_BYTES);
    assert data[pos..pos + COUNT_BYTES] == data[pos..][..COUNT_BYTES];
  }

  /** What reading v into an object that holds `was` leaves there: forward lists keep their old elements
      behind the new ones, and vectors hand theirs on to the elements read. */
  ghost function Merge(t: Type, v: Value, was: Value): Value
    requires WellFormed(t) && HasType(v, t) && HasType(was, t)
    decreases v
  {
    match t
    case PairT(a, b) => Pair(Merge(a, v.first, was.first), Merge(b, v.second, was.second))
    case VectorT(e) => Items(seq(|v.items|, i requires 0 <= i < |v.items| =>
        if i < |was.items| then Merge(e, v.items[i], was.items[i]) else v.items[i]))
    case ForwardListT(_) => Items(v.items + was.items)
    case _ => v
  }

  /** Read into another list, a forward list gets the new elements in front of the old ones; every other container
      forgets what it held. */
  lemma MergeOfContainers(t: Type, v: Value, was: Value)
    requires WellFormed(t) && HasType(v, t) && HasType(was, t)
    ensures t.ForwardListT? ==> Merge(t, v, was) == Items(v.items + was.items)
    ensures t.ListT? || t.SetT? || t.MapT? || t.StringT? || t.PlainT? ==> Merge(t, v, was) == v
    ensures t.VectorT? ==> Merge(t, v, was).Items? && |Merge(t, v, was).items| == |v.items|
  {}

  /** No forward list that v will be read into holds anything yet. */
  ghost predicate Fresh(t: Type, v: Value, was: Value)
    requires WellFormed(t) && HasType(v, t) && HasType(was, t)
    decreases v
  {
    match t
    case PairT(a, b) => Fresh(a, v.first, was.first) && Fresh(b, v.second, was.second)
    case VectorT(e) => forall i | 0 <= i < |v.items| && i < |was.items| :: Fresh(e, v.items[i], was.items[i])
    case ForwardListT(_) => was.items == []
    case _ => true
  }

  lemma {:induction false} MergeIff(t: Type, v: Value, was: Value)
    requires WellFormed(t) && HasType(v, t) && HasType(was, t)
    ensures Merge(t, v, was) == v <==> Fresh(t, v, was)
    decreases v
  {
    match t
    case PairT(a, b) =>
      MergeIff(a, v.first, was.first);
      MergeIff(b, v.second, was.second);
    case VectorT(e) =>
      var m := Merge(t, v, was);
      forall i | 0 <= i < |v.items| && i < |was.items|
        ensures m.items[i] == v.items[i] <==> Fresh(e, v.items[i], was.items[i])
      {
        MergeIff(e, v.items[i], was.items[i]);
      }
    case ForwardListT(_) =>
      assert was.items == [] ==> v.items + was.items == v.items;
    case _ =>
  }

  lemma {:induction false} BlankFits(t: Type)
    requires WellFormed(t)
    ensures HasType(Blank(t), t)
  {
    match t
    case PairT(a, b) =>
      BlankFits(a);
      BlankFits(b);
    case _ =>
  }

  lemma {:induction false} BlankIsFresh(t: Type, v: Value)
    requires WellFormed(t) && HasType(v, t) && HasType(Blank(t), t)
    ensures Fresh(t, v, Blank(t))
    decreases v
  {
    match t
    case PairT(a, b) =>
      BlankFits(a);
      BlankFits(b);
      BlankIsFresh(a, v.first);
      BlankIsFresh(b, v.second);
    case _ =>
  }

  // ---------------------------------------------------------------- round trip

  lemma AfterInsert(t: Type, items: seq<Value>, i: nat)
    requires i < |items| && KeepsApart(t, items)
    ensures Inserted(t, items[..i], items[i]) == items[..i + 1]
  {
    assert items[..i + 1] == items[..i] + [items[i]];
    assert forall j | 0 <= j < i :: items[..i][j] == items[j];
  }

  lemma DecodeStringEncoding(v: Value, was: Value, data: seq<byte>, pos: nat)
    requires HasType(v, StringT) && At(data, pos, Enc(v))
    ensures Decode(StringT, data, pos, was) == Got(v, pos + |Enc(v)|)
  {
    AtSplit(data, pos, Le(|v.chars|, COUNT_BYTES), v.chars);
    CountAt(data, pos, |v.chars|);
    hide Count;
  }

  /** Wherever the encoding of v stands, decoding there yields v merged into the object it is read into,
      and stops exactly at the end of the encoding. */
  lemma {:induction false} DecodeEncoding(t: Type, v: Value, was: Value, data: seq<byte>, pos: nat)
    requires WellFormed(t) && HasType(v, t) && HasType(was, t) && At(data, pos, Enc(v))
    ensures Decode(t, data, pos, was) == Got(Merge(t, v, was), pos + |Enc(v)|)
    decreases v, 3
  {
    match t
    case PlainT(n) =>
    case StringT => DecodeStringEncoding(v, was, data, pos);
    case PairT(a, b) =>
      AtSplit(data, pos, Enc(v.first), Enc(v.second));
      DecodeEncoding(a, v.first, was.first, data, pos);
      DecodeEncoding(b, v.second, was.second, data, pos + |Enc(v.first)|);
    case _ => DecodeContainerEncoding(t, v, was, data, pos);
  }

  lemma {:induction false} DecodeContainerEncoding(t: Type, v: Value, was: Value, data: seq<byte>, pos: nat)
    requires WellFormed(t) && t.Container() && HasType(v, t) && HasType(was, t) && At(data, pos, Enc(v))
    ensures Decode(t, data, pos, was) == Got(Merge(t, v, was), pos + |Enc(v)|)
    decreases v, 2
  {
    var n := |v.items|;
    AtSplit(data, pos, Le(n, COUNT_BYTES), EncAll(v.items));
    CountAt(data, pos, n);
    assert v.items[0..] == v.items;
    DecodeItemsEncoding(t, v, was, data, pos + COUNT_BYTES, 0);
    hide DecodeItems, At, Count;
  }

  /** What a container of type t holds after the first i elements of v. */
  ghost function Loaded(t: Type, v: Value, was: Value): (items: seq<Value>)
    requires WellFormed(t) && t.Container() && HasType(v, t) && HasType(was, t)
    ensures |items| == |v.items|
  {
    if t.VectorT? then Merge(t, v, was).items else v.items
  }

  lemma TargetFits(t: Type, v: Value, was: Value, i: nat)
    requires WellFormed(t) && t.Container() && HasType(v, t) && HasType(was, t) && i < |v.items|
    ensures HasType(Target(t, was, i), t.elem)
    ensures Loaded(t, v, was)[i] == Merge(t.elem, v.items[i], Target(t, was, i))
  {
    BlankFits(t.elem);
    BlankIsFresh(t.elem, v.items[i]);
    MergeIff(t.elem, v.items[i], Blank(t.elem));
  }

  lemma ElementFits(t: Type, v: Value, i: nat)
    requires WellFormed(t) && t.Container() && HasType(v, t) && i < |v.items|
    ensures WellFormed(t.elem) && HasType(v.items[i], t.elem)
  {}

  lemma LoadedApart(t: Type, v: Value, was: Value)
    requires WellFormed(t) && t.Container() && HasType(v, t) && HasType(was, t)
    ensures KeepsApart(t, Loaded(t, v, was))
  {}

  lemma EncAllFrom(items: seq<Value>, i: nat)
    requires i < |items|
    ensures EncAll(items[i..]) == Enc(items[i]) + EncAll(items[i + 1..])
  {
    assert items[i..][1..] == items[i + 1..];
  }

  lemma DecodeItemsStep(t: Type, data: seq<byte>, pos: nat, i: nat, n: nat, acc: seq<Value>, was: Value, x: Value,
                        next: nat)
    requires t.Container() && i < n && Decode(t.elem, data, pos, Target(t, was, i)) == Got(x, next)
    ensures DecodeItems(t, data, pos, i, n, acc, was) == DecodeItems(t, data, next, i + 1, n, Inserted(t, acc, x), was)
  {}

  lemma ItemsAdvance(t: Type, data: seq<byte>, pos: nat, i: nat, loaded: seq<Value>, was: Value, next: nat)
    requires t.Container() && i < |loaded| && KeepsApart(t, loaded)
    requires Decode(t.elem, data, pos, Target(t, was, i)) == Got(loaded[i], next)
    ensures DecodeItems(t, data, pos, i, |loaded|, loaded[..i], was)
         == DecodeItems(t, data, next, i + 1, |loaded|, loaded[..i + 1], was)
  {
    hide DecodeItems, Decode, Target, Inserted, KeepsApart;
    DecodeItemsStep(t, data, pos, i, |loaded|, loaded[..i], was, loaded[i], next);
    AfterInsert(t, loaded, i);
  }

  lemma NothingToDecode(t: Type, data: seq<byte>, pos: nat, items: seq<Value>, acc: seq<Value>, was: Value)
    requires t.Container()
    ensures DecodeItems(t, data, pos, |items|, |items|, acc, was) == Got(Items(acc), pos + |EncAll(items[|items|..])|)
  {}

  lemma {:induction false} DecodeElement(t: Type, v: Value, was: Value, data: seq<byte>, pos: nat, i: nat)
    requires WellFormed(t) && t.Container() && HasType(v, t) && HasType(was, t)
    requires i < |v.items| && At(data, pos, Enc(v.items[i]))
    ensures Decode(t.elem, data, pos, Target(t, was, i)) == Got(Loaded(t, v, was)[i], pos + |Enc(v.items[i])|)
    decreases v, 0, 0
  {
    ElementFits(t, v, i);
    TargetFits(t, v, was, i);
    hide Decode, At, Enc, Merge, Loaded, Target, HasType, WellFormed;
    DecodeEncoding(t.elem, v.items[i], Target(t, was, i), data, pos);
  }

  /** The elements of v from the i-th on stand in `data` at `pos`. */
  ghost predicate ItemsStand(t: Type, v: Value, was: Value, data: seq<byte>, pos: nat, i: nat) {
    && WellFormed(t) && t.Container() && HasType(v, t) && HasType(was, t)
    && i <= |v.items| && At(data, pos, EncAll(v.items[i..]))
  }

  /** Reading them completes the container. */
  ghost predicate ItemsRead(t: Type, v: Value, was: Value, data: seq<byte>, pos: nat, i: nat)
    requires ItemsStand(t, v, was, data, pos, i)
  {
    DecodeItems(t, data, pos, i, |v.items|, Loaded(t, v, was)[..i], was)
    == Got(Items(Loaded(t, v, was)), pos + |EncAll(v.items[i..])|)
  }

  lemma ItemsStandNext(t: Type, v: Value, was: Value, data: seq<byte>, pos: nat, i: nat, next: nat)
    requires ItemsStand(t, v, was, data, pos, i) && i < |v.items| && next == pos + |Enc(v.items[i])|
    ensures ItemsStand(t, v, was, data, next, i + 1) && At(data, pos, Enc(v.items[i]))
    ensures next + |EncAll(v.items[i + 1..])| == pos + |EncAll(v.items[i..])|
  {
    EncAllFrom(v.items, i);
    hide EncAll, Enc, HasType, At, WellFormed;
    AtSplit(data, pos, Enc(v.items[i]), EncAll(v.items[i + 1..]));
  }

  lemma {:induction false} DecodeItemsOne(t: Type, v: Value, was: Value, data: seq<byte>, pos: nat, i: nat, next: nat)
    requires ItemsStand(t, v, was, data, pos, i) && i < |v.items| && next == pos + |Enc(v.items[i])|
    ensures ItemsStand(t, v, was, data, next, i + 1)
    ensures ItemsRead(t, v, was, data, next, i + 1) ==> ItemsRead(t, v, was, data, pos, i)
    decreases v, 0, 2
  {
    ItemsStandNext(t, v, was, data, pos, i, next);
    DecodeOneFurther(t, v, was, data, pos, i, next);
    hide DecodeItems, EncAll, Enc, HasType, Merge, Loaded, Decode, At, KeepsApart, WellFormed, Target, Inserted;
  }

  lemma {:induction false} DecodeOneFurther(t: Type, v: Value, was: Value, data: seq<byte>, pos: nat, i: nat, next: nat)
    requires ItemsStand(t, v, was, data, pos, i) && i < |v.items| && next == pos + |Enc(v.items[i])|
    requires At(data, pos, Enc(v.items[i]))
    ensures var loaded := Loaded(t, v, was);
      DecodeItems(t, data, pos, i, |v.items|, loaded[..i], was)
      == DecodeItems(t, data, next, i + 1, |v.items|, loaded[..i + 1], was)
    decreases v, 0, 1
  {
    LoadedApart(t, v, was);
    hide DecodeItems, EncAll, Enc, HasType, Merge, Loaded, Decode, At, KeepsApart, WellFormed, Target, Inserted;
    DecodeElement(t, v, was, data, pos, i);
    ItemsAdvance(t, data, pos, i, Loaded(t, v, was), was, next);
  }

  lemma DecodeNoItems(t: Type, v: Value, was: Value, data: seq<byte>, pos: nat)
    requires v.Items? && ItemsStand(t, v, was, data, pos, |v.items|)
    ensures ItemsRead(t, v, was, data, pos, |v.items|)
  {
    NothingToDecode(t, data, pos, v.items, Loaded(t, v, was), was);
    assert Loaded(t, v, was)[..|v.items|] == Loaded(t, v, was);
    hide DecodeItems, EncAll, Merge, Loaded, At;
  }

  lemma {:induction false} DecodeItemsEncoding(t: Type, v: Value, was: Value, data: seq<byte>, pos: nat, i: nat)
    requires v.Items? && i <= |v.items| && ItemsStand(t, v, was, data, pos, i)
    ensures ItemsRead(t, v, was, data, pos, i)
    decreases v, 1, |v.items| - i
  {
    hide *;
    if i == |v.items| {
      DecodeNoItems(t, v, was, data, pos);
    } else {
      var next := pos + |Enc(v.items[i])|;
      DecodeItemsOne(t, v, was, data, pos, i, next);
      DecodeItemsEncoding(t, v, was, data, next, i + 1);
    }
  }

  /** Reading into an object whose forward lists are empty gives the value back, and only then. */
  lemma RoundTripIff(t: Type, v: Value, was: Value, before: seq<byte>, after: seq<byte>)
    requires WellFormed(t) && HasType(v, t) && HasType(was, t)
    ensures Decode(t, before + Enc(v) + after, |before|, was) == Got(v, |before| + |Enc(v)|) <==> Fresh(t, v, was)
  {
    var data := before + Enc(v) + after;
    assert data[|before|..][..|Enc(v)|] == Enc(v);
    DecodeEncoding(t, v, was, data, |before|);
    MergeIff(t, v, was);
  }

  /** What a successful write appended reads back as the value, whatever is appended later. */
  lemma {:induction false} WrittenReadsBack(t: Type, v: Value, was: Value, room: nat, before: seq<byte>,
                                            now: seq<byte>, later: seq<byte>)
    requires WellFormed(t) && HasType(v, t) && HasType(was, t)
    requires Appended(room, before, now, Emit(v), true) && Small(v) && Fresh(t, v, was)
    ensures Decode(t, now + later, |before|, was) == Got(v, |now|)
  {
    EmitIsEncodingIff(v);
    RoundTripIff(t, v, was, before, later);
  }

  lemma ReadsBackFirst(t: Type, v: Value, later: seq<byte>)
    requires WellFormed(t) && HasType(v, t)
    ensures Decode(t, Enc(v) + later, 0, Blank(t)) == Got(v, |Enc(v)|)
  {
    BlankFits(t);
    BlankIsFresh(t, v);
    hide *;
    assert [] + Enc(v) == Enc(v);
    RoundTripIff(t, v, Blank(t), [], later);
  }

  /** Encodings of one type are a prefix code: what follows cannot be mistaken for part of the value. */
  lemma Unambiguous(t: Type, v: Value, w: Value, a: seq<byte>, b: seq<byte>)
    requires WellFormed(t) && HasType(v, t) && HasType(w, t) && Enc(v) + a == Enc(w) + b
    ensures v == w && a == b
  {
    hide Decode, Enc, HasType, WellFormed;
    ReadsBackFirst(t, v, a);
    ReadsBackFirst(t, w, b);
    assert a == (Enc(v) + a)[|Enc(v)|..] && b == (Enc(w) + b)[|Enc(w)|..];
  }

  // ---------------------------------------------------------------- the buffer, the writer and the reader

  class RawBuffer {
    const memory: array<byte>
    var size: nat

    ghost predicate Valid()
      reads this
    {
      size <= memory.Length < LENGTH_LIMIT
    }

    ghost function Contents(): (s: seq<byte>)
      requires Valid()
      reads this, memory
      ensures |s| == size
    {
      memory[..size]
    }

    constructor (memory: array<byte>)
      requires memory.Length < LENGTH_LIMIT
      ensures Valid() && this.memory == memory && size == 0
    {
      this.memory, size := memory, 0;
    }

    /** The byte at a place in the underlying memory, or none outside it. */
    method ByteAt(pos: nat) returns (ok: bool, b: byte)
      requires Valid()
      ensures ok <==> pos < memory.Length
      ensures ok ==> b == memory[pos]
    {
      if pos >= memory.Length { return false, 0; }
      return true, memory[pos];
    }

    /** Append `len` bytes; the parameter is 32 bits wide, and a lack of room is an exception. */
    method Append(bytes: seq<byte>, len: nat) returns (ok: bool)
      requires Valid() && len == |bytes|
      modifies `size, memory
      ensures Valid()
      ensures ok <==> old(size) + len % LENGTH_LIMIT <= memory.Length
      ensures Contents() == if ok then old(Contents()) + bytes[..len % LENGTH_LIMIT] else old(Contents())
    {
      var n := len % LENGTH_LIMIT;
      if memory.Length - size < n { return false; }
      var start := size;
      ghost var was := memory[..start];
      for i := 0 to n
        invariant size == start && memory[..start + i] == was + bytes[..i]
      {
        memory[start + i] := bytes[i];
        assert bytes[..i + 1] == bytes[..i] + [bytes[i]];
      }
      size := size + n;
      ok := true;
    }
  }

  /** A write of s into a buffer with `room` bytes: all of s, or only a prefix of it when it does not fit. */
  ghost predicate Appended(room: nat, was: seq<byte>, now: seq<byte>, s: seq<byte>, ok: bool) {
    && (ok <==> |was| + |s| <= room)
    && (ok ==> now == was + s)
    && was <= now <= was + s
  }

  lemma AppendedBoth(room: nat, a: seq<byte>, b: seq<byte>, c: seq<byte>, s: seq<byte>, t: seq<byte>, ok: bool)
    requires Appended(room, a, b, s, true) && Appended(room, b, c, t, ok)
    ensures Appended(room, a, c, s + t, ok)
  {
    assert a + s + t == a + (s + t);
  }

  lemma AppendedFirst(room: nat, a: seq<byte>, b: seq<byte>, s: seq<byte>, t: seq<byte>)
    requires Appended(room, a, b, s, false)
    ensures Appended(room, a, b, s + t, false)
  {
    assert a + s + t == a + (s + t);
  }

  class Serialize {
    const buffer: RawBuffer
    var opos: nat

    ghost predicate Valid()
      reads this, buffer
    {
      buffer.Valid() && opos <= buffer.size
    }

    constructor (buffer: RawBuffer)
      requires buffer.Valid()
      ensures Valid() && this.buffer == buffer && opos == 0
    {
      this.buffer, opos := buffer, 0;
    }

    method WriteBytes(bytes: seq<byte>) returns (ok: bool)
      requires Valid()
      modifies `opos, buffer`size, buffer.memory
      ensures Valid()
      ensures var cut := bytes[..|bytes| % LENGTH_LIMIT];
        Appended(buffer.memory.Length, old(buffer.Contents()), buffer.Contents(), cut, ok)
      ensures ok ==> opos == old(opos) + |bytes| % LENGTH_LIMIT
    {
      ok := buffer.Append(bytes, |bytes|);
      if ok { opos := (opos + |bytes|) % LENGTH_LIMIT; }
    }

    method WriteCount(n: nat) returns (ok: bool)
      requires Valid()
      modifies `opos, buffer`size, buffer.memory
      ensures Valid()
      ensures Appended(buffer.memory.Length, old(buffer.Contents()), buffer.Contents(), Le(n, COUNT_BYTES), ok)
      ensures ok ==> opos == old(opos) + COUNT_BYTES
    {
      ok := WriteBytes(Le(n, COUNT_BYTES));
      assert Le(n, COUNT_BYTES)[..COUNT_BYTES] == Le(n, COUNT_BYTES);
    }

    /** operator<< for every type. An exception in the buffer ends the write. */
    method Write(v: Value) returns (ok: bool)
      requires Valid()
      modifies `opos, buffer`size, buffer.memory
      ensures Valid()
      ensures Appended(buffer.memory.Length, old(buffer.Contents()), buffer.Contents(), Emit(v), ok)
      ensures ok ==> opos == old(opos) + |Emit(v)|
      decreases v
    {
      hide Appended;
      ghost var room, a := buffer.memory.Length, buffer.Contents();
      match v
      case Plain(bytes) =>
        ok := WriteBytes(bytes);
      case Str(chars) =>
        ok := WriteCount(|chars|);
        ghost var b, cut := buffer.Contents(), chars[..|chars| % LENGTH_LIMIT];
        if !ok { AppendedFirst(room, a, b, Le(|chars|, COUNT_BYTES), cut); return; }
        ok := WriteBytes(chars);
        AppendedBoth(room, a, b, buffer.Contents(), Le(|chars|, COUNT_BYTES), cut, ok);
      case Pair(x, y) =>
        ok := Write(x);
        ghost var b := buffer.Contents();
        if !ok { AppendedFirst(room, a, b, Emit(x), Emit(y)); return; }
        ok := Write(y);
        AppendedBoth(room, a, b, buffer.Contents(), Emit(x), Emit(y), ok);
      case Items(items) =>
        ok := WriteCount(|items|);
        ghost var b := buffer.Contents();
        if !ok { AppendedFirst(room, a, b, Le(|items|, COUNT_BYTES), EmitAll(items)); return; }
        ok := WriteItems(items);
        AppendedBoth(room, a, b, buffer.Contents(), Le(|items|, COUNT_BYTES), EmitAll(items), ok);
    }

    method WriteItems(items: seq<Value>) returns (ok: bool)
      requires Valid()
      modifies `opos, buffer`size, buffer.memory
      ensures Valid()
      ensures Appended(buffer.memory.Length, old(buffer.Contents()), buffer.Contents(), EmitAll(items), ok)
      ensures ok ==> opos == old(opos) + |EmitAll(items)|
      decreases items
    {
      ghost var room, a := buffer.memory.Length, buffer.Contents();
      for i := 0 to |items|
        invariant Valid() && opos == old(opos) + |EmitAll(items[..i])|
        invariant Appended(room, a, buffer.Contents(), EmitAll(items[..i]), true)
      {
        ghost var b := buffer.Contents();
        EmitSnoc(items, i);
        hide Appended;
        ok := Write(items[i]);
        AppendedBoth(room, a, b, buffer.Contents(), EmitAll(items[..i]), Emit(items[i]), ok);
        if !ok {
          AppendedFirst(room, a, buffer.Contents(), EmitAll(items[..i + 1]), EmitAll(items[i + 1..]));
          return;
        }
      }
      assert items[..|items|] == items;
      ok := true;
    }
  }

  lemma {:induction false} EmitAppend(a: seq<Value>, b: seq<Value>)
    ensures EmitAll(a + b) == EmitAll(a) + EmitAll(b)
    decreases |a|
  {
    if a == [] {
      assert a + b == b;
    } else {
      EmitAppend(a[1..], b);
      assert (a + b)[1..] == a[1..] + b;
    }
  }

  lemma EmitSnoc(items: seq<Value>, i: nat)
    requires i < |items|
    ensures EmitAll(items[..i + 1]) == EmitAll(items[..i]) + Emit(items[i])
    ensures EmitAll(items) == EmitAll(items[..i + 1]) + EmitAll(items[i + 1..])
  {
    EmitAppend(items[..i], [items[i]]);
    assert items[..i + 1] == items[..i] + [items[i]];
    EmitAppend(items[..i + 1], items[i + 1..]);
    assert items == items[..i + 1] + items[i + 1..];
  }

  class Deserialize {
    const buffer: RawBuffer
    var ipos: nat

    constructor (buffer: RawBuffer)
      ensures this.buffer == buffer && ipos == 0
    {
      this.buffer, ipos := buffer, 0;
    }

    /** Copy bytes over the front of `was` until it is full or the written part of the buffer ends. */
    method ReadBytes(was: seq<byte>) returns (bytes: seq<byte>)
      requires buffer.Valid()
      modifies this
      ensures var data, k := buffer.Contents(), Min(|was|, Left(buffer.Contents(), old(ipos)));
        ipos == old(ipos) + k && bytes == (if k == 0 then [] else data[old(ipos)..old(ipos) + k]) + was[k..]
    {
      bytes := was;
      ghost var start, data := ipos, buffer.Contents();
      var i := 0;
      while i < |was| && ipos < buffer.size
        invariant i <= |was| && ipos == start + i && |bytes| == |was|
        invariant i > 0 ==> ipos <= |data| && bytes[..i] == data[start..ipos]
        invariant bytes[i..] == was[i..]
      {
        var ok, b := buffer.ByteAt(ipos);
        bytes := bytes[i := b];
        ipos := ipos + 1;
        i := i + 1;
      }
      assert bytes == bytes[..i] + bytes[i..];
    }

    method ReadCount() returns (n: nat)
      requires buffer.Valid()
      modifies this
      ensures (n, ipos) == Count(buffer.Contents(), old(ipos))
    {
      ghost var data, k := buffer.Contents(), Min(COUNT_BYTES, Left(buffer.Contents(), ipos));
      var bytes := ReadBytes(seq(COUNT_BYTES, i => 0));
      n := LeValue(bytes);
      ZeroTail(if k == 0 then [] else data[old(ipos)..old(ipos) + k], bytes);
    }

    method ReadPlain(n: nat, ghost was: Value) returns (v: Value)
      requires buffer.Valid()
      modifies this
      ensures var r := Decode(PlainT(n), buffer.Contents(), old(ipos), was); r.Got? ==> v == r.value && ipos == r.next
    {
      var unset: seq<byte> := *;
      var bytes := ReadBytes(if |unset| == n then unset else seq(n, i => 0));
      v := Plain(bytes);
    }

    method ReadString(ghost was: Value) returns (v: Value)
      requires buffer.Valid()
      modifies this
      ensures var r := Decode(StringT, buffer.Contents(), old(ipos), was); r.Got? ==> v == r.value && ipos == r.next
    {
      hide Count;
      var n := ReadCount();
      var chars: seq<byte> := *;
      if ipos + n <= buffer.size { chars := buffer.memory[ipos..ipos + n]; }
      ipos := (ipos + n) % LENGTH_LIMIT;
      v := Str(chars);
    }

    /** operator>> for every type, into an object that holds `was`. Where decoding is undefined nothing is
        promised. */
    method Read(t: Type, was: Value) returns (v: Value)
      requires buffer.Valid()
      modifies this
      ensures var r := Decode(t, buffer.Contents(), old(ipos), was); r.Got? ==> v == r.value && ipos == r.next
      decreases t, 1
    {
      hide Decode, DecodeItems, Count, Finished, Prepended;
      match t
      case PlainT(n) =>
        v := ReadPlain(n, was);
      case StringT =>
        v := ReadString(was);
      case PairT(a, b) =>
        if Decode(t, buffer.Contents(), ipos, was).Got? { DecodePair(a, b, buffer.Contents(), ipos, was); }
        var x := Read(a, if was.Pair? then was.first else Blank(a));
        var y := Read(b, if was.Pair? then was.second else Blank(b));
        v := Pair(x, y);
      case _ =>
        DecodeContainer(t, buffer.Contents(), ipos, was);
        var n := ReadCount();
        var items := ReadItems(t, n, was);
        v := Items(Prepended(t, items, was));
    }

    method ReadItems(t: Type, n: nat, was: Value) returns (items: seq<Value>)
      requires buffer.Valid() && t.Container()
      modifies this
      ensures var r := DecodeItems(t, buffer.Contents(), old(ipos), 0, n, [], was);
        r.Got? ==> Items(items) == r.value && ipos == r.next
      decreases t, 0
    {
      items := [];
      ghost var full := DecodeItems(t, buffer.Contents(), ipos, 0, n, [], was);
      for i := 0 to n
        invariant full.Got? ==> full == DecodeItems(t, buffer.Contents(), ipos, i, n, items, was)
      {
        var x := Read(t.elem, Target(t, was, i));
        items := Inserted(t, items, x);
      }
    }
  }

  lemma {:induction false} ZeroTail(s: seq<byte>, bytes: seq<byte>)
    requires s <= bytes && forall i | |s| <= i < |bytes| :: bytes[i] == 0
    ensures LeValue(bytes) == LeValue(s)
    decreases |bytes|
  {
    if bytes == [] {
    } else {
      ZeroTail(if s == [] then [] else s[1..], bytes[1..]);
    }
  }
}

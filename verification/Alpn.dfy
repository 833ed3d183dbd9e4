/** The length-prefixed protocol list (section 3.1 of RFC 7301): its encoder, and the scan with
    which a server selects a protocol when no external decision function is set. */
module Alpn {
  import opened Runs

  type Byte = x: int | 0 <= x < 256
  type Name = seq<Byte>

  /** What `appendProtocolOnList` appends: the length as one byte, and that many bytes. */
  function Entry(name: Name): (r: seq<Byte>) {
    [|name| % 256] + name[..|name| % 256]
  }

  function Encode(names: seq<Name>): (r: seq<Byte>) {
    if names == [] then [] else Entry(names[0]) + Encode(names[1..])
  }

  predicate Encodable(name: Name) {
    1 <= |name| <= 255
  }

  ghost predicate AllEncodable(names: seq<Name>) {
    forall k :: 0 <= k < |names| ==> Encodable(names[k])
  }

  /** The entry at cursor `i`, if the scan takes one there: the list is not at its end, the length is
      not zero, and the entry lies within the list. */
  predicate EntryAt(list: seq<Byte>, i: nat) {
    i < |list| && list[i] > 0 && i + 1 + list[i] <= |list|
  }

  /** The names a reader of the list finds from cursor `i` on. */
  function Decode(list: seq<Byte>, i: nat): (r: seq<Name>)
    decreases |list| - i
  {
    if !EntryAt(list, i) then []
    else [list[i + 1..i + 1 + list[i]]] + Decode(list, i + 1 + list[i])
  }

  /** The place where the `k`-th entry starts. */
  function Offset(names: seq<Name>, k: nat): nat
    requires k <= |names|
  {
    |Encode(names[..k])|
  }

  lemma {:induction false} EncodeConcat(a: seq<Name>, b: seq<Name>)
    ensures Encode(a + b) == Encode(a) + Encode(b)
  {
    if a == [] {
      assert a + b == b;
    } else {
      assert (a + b)[1..] == a[1..] + b;
      EncodeConcat(a[1..], b);
    }
  }

  lemma EncodeOne(name: Name)
    ensures Encode([name]) == Entry(name)
  {
    assert [name][1..] == [];
  }

  lemma EncodeSnoc(names: seq<Name>, k: nat)
    requires k < |names|
    ensures Encode(names[..k + 1]) == Encode(names[..k]) + Entry(names[k])
  {
    assert names[..k + 1] == names[..k] + [names[k]];
    EncodeConcat(names[..k], [names[k]]);
    EncodeOne(names[k]);
  }

  lemma EncodeSplit(names: seq<Name>, k: nat)
    requires k < |names|
    ensures Encode(names) == Encode(names[..k]) + (Entry(names[k]) + Encode(names[k + 1..]))
  {
    assert names == names[..k] + names[k..];
    EncodeConcat(names[..k], names[k..]);
    assert names[k..][1..] == names[k + 1..];
  }

  lemma ReadMiddle(a: seq<Byte>, size: Byte, body: seq<Byte>, b: seq<Byte>)
    requires |body| == size
    ensures var list := a + (([size] + body) + b);
            |a| + 1 + size <= |list| && list[|a|] == size && list[|a| + 1..|a| + 1 + size] == body
  {
  }

  /** The encoded list read at the start of its `k`-th entry. */
  lemma EntryOfEncoded(names: seq<Name>, k: nat)
    requires k < |names|
    ensures var list, i, size := Encode(names), Offset(names, k), |names[k]| % 256;
            && i + 1 + size == Offset(names, k + 1) <= |list|
            && list[i] == size && list[i + 1..i + 1 + size] == names[k][..size]
  {
    EncodeSplit(names, k);
    EncodeSnoc(names, k);
    var size := |names[k]| % 256;
    ReadMiddle(Encode(names[..k]), size, names[k][..size], Encode(names[k + 1..]));
  }

  lemma OffsetOfAll(names: seq<Name>)
    ensures Offset(names, |names|) == |Encode(names)| && Offset(names, 0) == 0
  {
    assert names[..|names|] == names && names[..0] == [];
  }

  /** The step from one boundary to the next. */
  lemma DecodeUnfolds(names: seq<Name>, k: nat)
    requires k < |names|
    ensures var size := |names[k]| % 256;
            Decode(Encode(names), Offset(names, k))
              == if size == 0 then [] else [names[k][..size]] + Decode(Encode(names), Offset(names, k + 1))
  {
    EntryOfEncoded(names, k);
  }

  lemma SameHeadAndTail(a: Name, s: seq<Name>, b: Name, t: seq<Name>)
    ensures [a] + s == [b] + t <==> a == b && s == t
  {
    assert ([a] + s)[0] == a && ([a] + s)[1..] == s && ([b] + t)[0] == b && ([b] + t)[1..] == t;
  }

  /** From an entry boundary on, decoding returns the names encoded there if and only if every one
      of them has 1 to 255 bytes. */
  lemma {:induction false} DecodeFromBoundary(names: seq<Name>, k: nat)
    requires k <= |names|
    ensures Decode(Encode(names), Offset(names, k)) == names[k..] <==> AllEncodable(names[k..])
    decreases |names| - k
  {
    if k == |names| {
      OffsetOfAll(names);
    } else {
      var name, rest := names[k], names[k + 1..];
      assert names[k..] == [name] + rest;
      DecodeUnfolds(names, k);
      DecodeFromBoundary(names, k + 1);
      DecodeHead(name, rest, Decode(Encode(names), Offset(names, k + 1)));
    }
  }

  lemma DecodeHead(name: Name, rest: seq<Name>, tail: seq<Name>)
    requires tail == rest <==> AllEncodable(rest)
    ensures var size := |name| % 256;
            (if size == 0 then [] else [name[..size]] + tail) == [name] + rest <==> AllEncodable([name] + rest)
  {
    HeadAndTail(name, rest);
    KeptWhole(name);
    SameHeadAndTail(name[..|name| % 256], tail, name, rest);
  }

  /** The length byte is not zero and covers the whole name exactly for 1 to 255 bytes. */
  lemma KeptWhole(name: Name)
    ensures var size := |name| % 256; size != 0 && name[..size] == name <==> Encodable(name)
    ensures Encodable(name) ==> |name| % 256 == |name|
  {
  }

  lemma HeadAndTail(name: Name, rest: seq<Name>)
    ensures AllEncodable([name] + rest) <==> Encodable(name) && AllEncodable(rest)
  {
    assert ([name] + rest)[0] == name;
    if AllEncodable([name] + rest) {
      forall k | 0 <= k < |rest| ensures Encodable(rest[k]) {
        assert ([name] + rest)[k + 1] == rest[k];
      }
    }
  }

  /** Decoding a whole encoded list returns the encoded names if and only if each has 1 to 255
      bytes; longer names are cut and a name of a multiple of 256 bytes ends the list. */
  lemma DecodeInvertsEncodeIff(names: seq<Name>)
    ensures Decode(Encode(names), 0) == names <==> AllEncodable(names)
  {
    OffsetOfAll(names);
    DecodeFromBoundary(names, 0);
    assert names[0..] == names;
  }

  // ----- selection -----

  /** The registered protocols.  A protocol may be registered without a callback; a callback is
      represented by its answer. */
  type Registry = map<Name, Option<bool>>

  /** How the scan ends: with a selected slice (0), a callback that declined (-2), an unregistered
      name (-3), the end of the list (-1), or an entry that reaches past the list. */
  datatype Outcome = Selected(start: nat, length: nat) | Declined | Unregistered | Exhausted | PastEnd

  function Select(list: seq<Byte>, i: nat, registry: Registry): (r: Outcome)
    decreases |list| - i
  {
    if i >= |list| || list[i] == 0 then Exhausted
    else if i + 1 + list[i] > |list| then PastEnd
    else
      var size := list[i];
      var key := list[i + 1..i + 1 + size];
      if key !in registry then Unregistered
      else if registry[key].None? then Select(list, i + 1 + size, registry)
      else if registry[key].value then Selected(i + 1, size)
      else Declined
  }

  /** The cursors the scan stands on. */
  function Cursors(list: seq<Byte>, i: nat, registry: Registry): (r: seq<nat>)
    decreases |list| - i
  {
    if !EntryAt(list, i) then [i]
    else
      var key := list[i + 1..i + 1 + list[i]];
      [i] + if key in registry && registry[key].None? then Cursors(list, i + 1 + list[i], registry) else []
  }

  /** Every name before the `k`-th is registered without a callback. */
  ghost predicate PassedOver(names: seq<Name>, k: nat, registry: Registry)
    requires k <= |names|
  {
    forall j :: 0 <= j < k ==> names[j] in registry && registry[names[j]].None?
  }

  /** What the scan should do at the `k`-th name when every earlier one is passed over. */
  ghost predicate Decides(names: seq<Name>, k: nat, registry: Registry, r: Outcome)
    requires k <= |names|
  {
    if k == |names| then r == Exhausted
    else if names[k] !in registry then r == Unregistered
    else if registry[names[k]].None? then false
    else if registry[names[k]].value then r == Selected(Offset(names, k) + 1, |names[k]|)
    else r == Declined
  }

  lemma {:induction false} SelectFromBoundary(names: seq<Name>, k: nat, registry: Registry) returns (n: nat)
    requires AllEncodable(names) && k <= |names| && PassedOver(names, k, registry)
    ensures k <= n <= |names| && PassedOver(names, n, registry)
    ensures Decides(names, n, registry, Select(Encode(names), Offset(names, k), registry))
    decreases |names| - k
  {
    n := k;
    if k == |names| {
      OffsetOfAll(names);
    } else {
      SliceIsName(names, k);
      if names[k] in registry && registry[names[k]].None? {
        n := SelectFromBoundary(names, k + 1, registry);
      }
    }
  }

  /** On an encoded list of names of 1 to 255 bytes, the scan passes over the names registered
      without a callback and is decided by the first other name; it never reaches past the list. */
  lemma SelectDecidesAtFirst(names: seq<Name>, registry: Registry) returns (n: nat)
    requires AllEncodable(names)
    ensures n <= |names| && PassedOver(names, n, registry)
    ensures Decides(names, n, registry, Select(Encode(names), 0, registry))
  {
    OffsetOfAll(names);
    n := SelectFromBoundary(names, 0, registry);
  }

  /** Success is exactly a registered name whose callback accepts, with every earlier name
      registered without a callback; the selected slice is that whole name. */
  lemma SelectedIff(names: seq<Name>, registry: Registry, k: nat)
    requires AllEncodable(names) && k < |names|
    ensures Select(Encode(names), 0, registry) == Selected(Offset(names, k) + 1, |names[k]|)
       <==> PassedOver(names, k, registry) && names[k] in registry && registry[names[k]] == Some(true)
    ensures var list, i := Encode(names), Offset(names, k) + 1;
            i + |names[k]| <= |list| && list[i..i + |names[k]|] == names[k]
  {
    SliceIsName(names, k);
    var n := SelectDecidesAtFirst(names, registry);
    if n < k {
      OffsetsGrow(names, n, k);
    } else if n > k {
      OffsetsGrow(names, k, n);
    }
  }

  lemma SliceIsName(names: seq<Name>, k: nat)
    requires AllEncodable(names) && k < |names|
    ensures var list, i := Encode(names), Offset(names, k) + 1;
            && i + |names[k]| == Offset(names, k + 1) <= |list| && list[i..i + |names[k]|] == names[k]
            && list[i - 1] == |names[k]| > 0
  {
    EntryOfEncoded(names, k);
    assert Encodable(names[k]);
    KeptWhole(names[k]);
  }

  lemma {:induction false} OffsetsGrow(names: seq<Name>, a: nat, b: nat)
    requires a < b <= |names|
    ensures Offset(names, a) < Offset(names, b)
    decreases b
  {
    EntryOfEncoded(names, b - 1);
    if a < b - 1 {
      OffsetsGrow(names, a, b - 1);
    }
  }

  /** The places where the entries of a list start, and its end. */
  ghost predicate Boundaries(list: seq<Byte>, starts: seq<nat>) {
    && starts != [] && starts[|starts| - 1] == |list|
    && forall j :: 0 <= j < |starts| - 1 ==> starts[j] < |list| && starts[j + 1] == starts[j] + 1 + list[starts[j]]
  }

  lemma {:induction false} CursorIsStart(list: seq<Byte>, starts: seq<nat>, k: nat, registry: Registry, c: nat)
    returns (n: nat)
    requires Boundaries(list, starts) && k < |starts| && c in Cursors(list, starts[k], registry)
    ensures k <= n < |starts| && c == starts[n]
    decreases |starts| - k
  {
    n := k;
    if c != starts[k] {
      n := CursorIsStart(list, starts, k + 1, registry, c);
    }
  }

  lemma OffsetsAreBoundaries(names: seq<Name>, starts: seq<nat>)
    requires AllEncodable(names) && |starts| == |names| + 1
    requires forall j :: 0 <= j <= |names| ==> starts[j] == Offset(names, j)
    ensures Boundaries(Encode(names), starts)
  {
    OffsetOfAll(names);
    forall j | 0 <= j < |names|
      ensures starts[j] < |Encode(names)| && starts[j + 1] == starts[j] + 1 + Encode(names)[starts[j]]
    {
      SliceIsName(names, j);
    }
  }

  /** The scan's cursor only ever stands on entry boundaries. */
  lemma CursorsOnBoundaries(names: seq<Name>, k: nat, registry: Registry, c: nat) returns (n: nat)
    requires AllEncodable(names) && k <= |names|
    requires c in Cursors(Encode(names), Offset(names, k), registry)
    ensures k <= n <= |names| && c == Offset(names, n)
  {
    var starts := seq(|names| + 1, j requires 0 <= j <= |names| => Offset(names, j));
    OffsetsAreBoundaries(names, starts);
    n := CursorIsStart(Encode(names), starts, k, registry, c);
  }

  // ----- as coded -----

  class ContextCreator {
    var nextProtoList: seq<Byte>
    var protocbs: Registry

    constructor ()
      ensures nextProtoList == [] && protocbs == map[]
    {
      nextProtoList, protocbs := [], map[];
    }

    /** Appending a name to an encoded list gives the encoding of the longer list. */
    method AppendProtocolOnList(protocol: Name, ghost names: seq<Name>)
      requires nextProtoList == Encode(names)
      modifies this`nextProtoList
      ensures nextProtoList == Encode(names + [protocol])
      ensures var size := |protocol| % 256; nextProtoList == old(nextProtoList) + [size] + protocol[..size]
    {
      var size := |protocol| % 256;
      var tmp: seq<Byte> := [size];
      tmp := tmp + protocol[..size];
      nextProtoList := nextProtoList + tmp;
      EncodeConcat(names, [protocol]);
      EncodeOne(protocol);
    }

    /** The internal path; `out` is the selected slice's place and length in the input. */
    method SelectNextProtocol(input: seq<Byte>) returns (code: int, out: Option<(nat, nat)>)
      requires Select(input, 0, protocbs) != PastEnd
      ensures match Select(input, 0, protocbs)
              case Selected(start, length) => code == 0 && out == Some((start, length))
              case Declined => code == -2 && out == None
              case Unregistered => code == -3 && out == None
              case _ => code == -1 && out == None
    {
      var i: nat := 0;
      out := None;
      while i < |input| && input[i] > 0
        invariant Select(input, i, protocbs) == Select(input, 0, protocbs)
        decreases |input| - i
      {
        var size := input[i];
        var p := i + 1;
        i := i + (size + 1);
        var key := input[p..p + size];
        if key in protocbs {
          if protocbs[key].Some? {
            var bret := protocbs[key].value;
            if bret {
              out := Some((p, size));
            }
            return if bret then 0 else -2, out;
          }
        } else {
          return -3, out;
        }
      }
      return -1, out;
    }
  }
}

/** The dynamic-linking section that leads a side module, before and after its imports are
    patched. */
module Dylink {
  import opened Bytes
  import opened Leb128
  import opened ModuleTypes
  import opened ModuleCodec
  import opened ImportPatch
  import O = Opcodes
  import Reading

  const NAME: seq<byte> := [0x64, 0x79, 0x6c, 0x69, 0x6e, 0x6b, 0x2e, 0x30]

  datatype Sizes = Sizes(memory: nat, table: nat)

  /** The sizes in the text of the first section, and the bytes read to find them. */
  function BodyAt(s: seq<byte>): Option<(Sizes, nat)> {
    match BytesAt(s)
    case None => None
    case Some((name, n)) =>
      if name != NAME || n >= |s| || s[n] != 1 then None else InfoAt(s[n + 1..], n + 1)
  }

  /** Two numbers. */
  function PairAt(s: seq<byte>): (r: Option<((nat, nat), nat)>)
    ensures r.Some? ==> r.value.1 <= |s|
  {
    match O.U32At(s)
    case None => None
    case Some((x, a)) =>
      match O.U32At(From(s, a))
      case None => None
      case Some((y, b)) => Some(((x, y), a + b))
  }

  /** The subsection: its size and the memory size, then the alignment and the table size. */
  function InfoAt(s: seq<byte>, used: nat): Option<(Sizes, nat)> {
    match PairAt(s)
    case None => None
    case Some(((_, memory), a)) =>
      match PairAt(From(s, a))
      case None => None
      case Some(((_, table), b)) => Some((Sizes(memory, table), used + a + b))
  }

  /** None: no module, no leading dynamic-linking section, or a truncated one. */
  function Parse(wasm: seq<byte>): Option<Sizes> {
    if |wasm| < 9 || wasm[..4] != MAGIC || wasm[8] != 0 then None
    else match O.U32At(wasm[9..])
      case None => None
      case Some((_, n)) =>
        First(BodyAt(From(wasm, 9 + n)))
  }

  function First(r: Option<(Sizes, nat)>): Option<Sizes> {
    if r.None? then None else Some(r.value.0)
  }

  method ParseDylink(wasm: seq<byte>) returns (r: Option<Sizes>)
    ensures r == Parse(wasm)
  {
    hide ReadU, BodyAt;
    if |wasm| < 9 || wasm[..4] != MAGIC || wasm[8] != 0 {
      return None;
    }
    var c := new Cur(wasm, 9);
    var size := c.U32();
    if size.None? {
      return None;
    }
    r := ReadBody(c);
  }

  method ReadBody(c: Cur) returns (r: Option<Sizes>)
    requires c.p <= |c.b|
    modifies c`p
    ensures r == First(BodyAt(old(c.Rest())))
  {
    hide ReadU, InfoAt, BytesAt;
    ghost var s := c.Rest();
    var name := Reading.ReadName(c);
    if name.None? || name.value != NAME || c.p >= |c.b| || c.b[c.p] != 1 {
      return None;
    }
    c.p := c.p + 1;
    assert c.Rest() == s[BytesAt(s).value.1 + 1..];
    r := ReadInfo(c, BytesAt(s).value.1 + 1);
  }

  method ReadPair(c: Cur) returns (r: Option<(nat, nat)>)
    requires c.p <= |c.b|
    modifies c`p
    ensures var i := PairAt(old(c.Rest()));
            && (r.Some? <==> i.Some?)
            && (r.Some? ==> r.value == i.value.0 && c.p == old(c.p) + i.value.1 && c.p <= |c.b|)
  {
    hide ReadU;
    ghost var start := c.p;
    var x := c.U32();
    if x.None? {
      return None;
    }
    FromFrom(c.b, start, c.p - start);
    var y := c.U32();
    if y.None? {
      return None;
    }
    r := Some((x.value, y.value));
  }

  method ReadInfo(c: Cur, ghost used: nat) returns (r: Option<Sizes>)
    requires c.p <= |c.b|
    modifies c`p
    ensures r == First(InfoAt(old(c.Rest()), used))
  {
    hide PairAt, From;
    ghost var start := c.p;
    var first := ReadPair(c);
    if first.None? {
      return None;
    }
    FromFrom(c.b, start, c.p - start);
    var second := ReadPair(c);
    r := if second.None? then None else Some(Sizes(first.value.1, second.value.1));
  }

  // ---- Locality ----

  lemma U32Local(s: seq<byte>, t: seq<byte>, k: nat)
    requires O.U32At(s).Some? && O.U32At(s).value.1 <= k && SameFirst(s, t, k)
    ensures O.U32At(t) == O.U32At(s)
    ensures SameFirst(From(s, O.U32At(s).value.1), From(t, O.U32At(s).value.1), k - O.U32At(s).value.1)
  {
    var n := O.U32At(s).value.1;
    SameFirstLess(s, t, k, n);
    ReadULocal(s, t);
    SameFirstDrop(s, t, k, n);
  }

  lemma PairLocal(s: seq<byte>, t: seq<byte>, k: nat)
    requires PairAt(s).Some? && PairAt(s).value.1 <= k && SameFirst(s, t, k)
    ensures PairAt(t) == PairAt(s)
    ensures SameFirst(From(s, PairAt(s).value.1), From(t, PairAt(s).value.1), k - PairAt(s).value.1)
  {
    hide O.U32At, SameFirst, From;
    var a := O.U32At(s).value.1;
    var b := O.U32At(From(s, a)).value.1;
    U32Local(s, t, k);
    FromFrom(s, a, b);
    FromFrom(t, a, b);
    U32Local(From(s, a), From(t, a), k - a);
  }

  lemma InfoLocal(s: seq<byte>, t: seq<byte>, used: nat, k: nat)
    requires InfoAt(s, used).Some? && InfoAt(s, used).value.1 <= used + k && SameFirst(s, t, k)
    ensures InfoAt(t, used) == InfoAt(s, used)
  {
    hide PairAt, SameFirst, From;
    var a := PairAt(s).value.1;
    PairLocal(s, t, k);
    PairLocal(From(s, a), From(t, a), k - a);
  }

  lemma BytesLocal(s: seq<byte>, t: seq<byte>, k: nat)
    requires BytesAt(s).Some? && BytesAt(s).value.1 <= k && SameFirst(s, t, k)
    ensures BytesAt(t) == BytesAt(s)
  {
    U32Local(s, t, k);
    var (v, n) := O.U32At(s).value;
    assert s[n..n + v] == s[..k][n..n + v] == t[..k][n..n + v] == t[n..n + v];
  }

  lemma BodyLocal(s: seq<byte>, t: seq<byte>, k: nat)
    requires BodyAt(s).Some? && BodyAt(s).value.1 <= k && SameFirst(s, t, k)
    ensures BodyAt(t) == BodyAt(s)
  {
    hide BytesAt, InfoAt;
    var n := BytesAt(s).value.1;
    InfoUses(s[n + 1..], n + 1);
    BytesLocal(s, t, k);
    SameFirstDrop(s, t, k, n + 1);
    InfoLocal(s[n + 1..], t[n + 1..], n + 1, k - n - 1);
    assert s[n] == s[..k][n] == t[..k][n] == t[n];
  }

  lemma InfoUses(s: seq<byte>, used: nat)
    requires InfoAt(s, used).Some?
    ensures InfoAt(s, used).value.1 >= used
  {
  }

  /** The text of the first section. */
  function FirstSection(wasm: seq<byte>): seq<byte>
    requires |wasm| >= 9
  {
    var r := NameFrom(wasm[9..]);
    if r.None? then [] else r.value.0
  }

  /** What is read lies inside the first section. */
  ghost predicate InsideFirst(wasm: seq<byte>)
    requires |wasm| >= 9
  {
    var size := O.U32At(wasm[9..]);
    size.Some? &&
    var body := BodyAt(From(wasm, 9 + size.value.1));
    body.Some? && body.value.1 <= |FirstSection(wasm)|
  }

  /** The sizes found are the same before and after patching. */
  lemma PatchKeepsSizes(wasm: seq<byte>)
    requires |wasm| < TWO_32 && Patch(wasm).Some? && |Patch(wasm).value| < TWO_32
    requires Parse(wasm).Some? && InsideFirst(wasm)
    ensures Parse(Patch(wasm).value) == Parse(wasm)
  {
    hide BytesAt, BodyAt, NameFrom, O.U32At, PutSection, PatchSections, Patch, SameFirst, From, PutU;
    var payload := FirstSection(wasm);
    var rest := PatchedShape(wasm);
    FirstText(wasm, payload, NameFrom(wasm[9..]).value.1, rest);
    PatchedText2(wasm, payload, rest);
    var body := From(wasm, 9 + O.U32At(wasm[9..]).value.1);
    SameFirstLess(body, payload + rest, |payload|, BodyAt(body).value.1);
    BodyLocal(body, payload + rest, BodyAt(body).value.1);
  }

  lemma PatchedShape(wasm: seq<byte>) returns (rest: seq<byte>)
    requires |wasm| >= 9 && wasm[8] == 0 && Patch(wasm).Some?
    ensures NameFrom(wasm[9..]).Some? && |FirstSection(wasm)| <= |wasm|
    ensures Patch(wasm).value == wasm[..8] + (PutSection(Section(0, FirstSection(wasm))) + rest)
  {
    hide NameFrom, PutSection, RewriteSection;
    var s := wasm[8..];
    assert s[0] == 0 && s[1..] == wasm[9..];
    rest := PatchSections(s[1 + NameFrom(s[1..]).value.1..]).value;
  }

  /** In the original the section's text follows its size, */
  lemma FirstText(wasm: seq<byte>, payload: seq<byte>, n: nat, t: seq<byte>)
    requires |wasm| >= 9 && NameFrom(wasm[9..]) == Some((payload, n)) && O.U32At(wasm[9..]).Some?
    ensures SameFirst(From(wasm, 9 + O.U32At(wasm[9..]).value.1), payload + t, |payload|)
  {
    hide Groups, Span, ReadU, SameFirst;
    Leb64IsReadU(wasm[9..]);
    var a := O.U32At(wasm[9..]).value.1;
    FromDrop(wasm, 9, a);
    TextOf(wasm[9..], a, payload, t);
  }

  lemma TextOf(s: seq<byte>, a: nat, payload: seq<byte>, t: seq<byte>)
    requires a + |payload| <= |s| && s[a..a + |payload|] == payload
    ensures SameFirst(s[a..], payload + t, |payload|)
  {
    assert s[a..][..|payload|] == payload;
    assert (payload + t)[..|payload|] == payload;
  }

  /** and in the patched module as well. */
  lemma PatchedText2(wasm: seq<byte>, payload: seq<byte>, rest: seq<byte>)
    requires |wasm| >= 9 && |payload| < TWO_32
    ensures var out := wasm[..8] + (PutSection(Section(0, payload)) + rest);
            && |out| >= 9 && out[..4] == wasm[..4] && out[8] == 0
            && O.U32At(out[9..]) == Some((|payload|, |PutU(|payload|)|))
            && From(out, 9 + |PutU(|payload|)|) == payload + rest
  {
    hide PutU, O.U32At;
    var out := wasm[..8] + (PutSection(Section(0, payload)) + rest);
    U32RoundTrip(|payload|, payload + rest);
    assert out[9..] == PutU(|payload|) + (payload + rest);
  }

  // ---- What a linker writes ----

  /** The dynamic-linking section: its name, and the subsection with the memory size and alignment
      and the table size and alignment, led by its kind and length. */
  function Linked(memory: nat, memAlign: nat, table: nat, tableAlign: nat): seq<byte> {
    var info := PutU(memory) + PutU(memAlign) + PutU(table) + PutU(tableAlign);
    PutU(8) + [0x64, 0x79, 0x6c, 0x69, 0x6e, 0x6b, 0x2e, 0x30] + [1] + PutU(|info|) + info
  }

  /** A module that starts with such a section: its sizes are found, whatever follows them in the
      section and in the module. */
  lemma {:induction false} WrittenSizes(
      version: seq<byte>, memory: nat, memAlign: nat, table: nat, tableAlign: nat, more: seq<byte>, rest: seq<byte>)
    requires |version| == 4
    requires memory < TWO_32 && memAlign < TWO_32 && table < TWO_32 && tableAlign < TWO_32
    ensures var payload := Linked(memory, memAlign, table, tableAlign) + more;
            |payload| < TWO_32 ==>
              Parse([0x00, 0x61, 0x73, 0x6d] + version + [0] + PutU(|payload|) + payload + rest) ==
              Some(Sizes(memory, table))
  {
    hide PutU, O.U32At, BytesAt, InfoAt, BodyAt;
    var payload := Linked(memory, memAlign, table, tableAlign) + more;
    if |payload| < TWO_32 {
      var size := PutU(|payload|);
      var wasm := [0x00, 0x61, 0x73, 0x6d] + version + [0] + size + payload + rest;
      assert wasm[9..] == size + (payload + rest) && wasm[..4] == [0x00, 0x61, 0x73, 0x6d] && wasm[8] == 0;
      U32RoundTrip(|payload|, payload + rest);
      assert From(wasm, 9 + |size|) == payload + rest;
      SectionReads(memory, memAlign, table, tableAlign, more + rest);
      assert payload + rest == Linked(memory, memAlign, table, tableAlign) + (more + rest);
    }
  }

  lemma {:induction false} SectionReads(memory: nat, memAlign: nat, table: nat, tableAlign: nat, t: seq<byte>)
    requires memory < TWO_32 && memAlign < TWO_32 && table < TWO_32 && tableAlign < TWO_32
    requires |Linked(memory, memAlign, table, tableAlign)| < TWO_32
    ensures First(BodyAt(Linked(memory, memAlign, table, tableAlign) + t)) == Some(Sizes(memory, table))
  {
    hide PutU, O.U32At, InfoAt;
    var info := PutU(memory) + PutU(memAlign) + PutU(table) + PutU(tableAlign);
    var s := Linked(memory, memAlign, table, tableAlign) + t;
    var tail := [1] + (PutU(|info|) + info + t);
    U32RoundTrip(8, NAME + tail);
    assert s == PutU(8) + (NAME + tail);
    assert s[|PutU(8)|..|PutU(8)| + 8] == NAME;
    var n := |PutU(8)| + 8;
    assert s[n..] == tail && s[n] == 1 && s[n + 1..] == PutU(|info|) + info + t;
    Regrouped(PutU(|info|), PutU(memory), PutU(memAlign), PutU(table), PutU(tableAlign), t);
    InfoReads(memory, memAlign, table, tableAlign, |info|, t, n + 1);
  }

  lemma {:induction false} PairReads(x: nat, y: nat, t: seq<byte>)
    requires x < TWO_32 && y < TWO_32
    ensures PairAt(PutU(x) + (PutU(y) + t)) == Some(((x, y), |PutU(x)| + |PutU(y)|))
  {
    hide PutU, O.U32At;
    U32RoundTrip(x, PutU(y) + t);
    U32RoundTrip(y, t);
  }

  lemma {:induction false} InfoReads(
      memory: nat, memAlign: nat, table: nat, tableAlign: nat, size: nat, t: seq<byte>, used: nat)
    requires memory < TWO_32 && memAlign < TWO_32 && table < TWO_32 && tableAlign < TWO_32 && size < TWO_32
    ensures var more := PutU(memAlign) + (PutU(table) + (PutU(tableAlign) + t));
            First(InfoAt(PutU(size) + (PutU(memory) + more), used)) == Some(Sizes(memory, table))
  {
    hide PutU, PairAt, InfoAt, From;
    var last := PutU(tableAlign) + t;
    var more := PutU(memAlign) + (PutU(table) + last);
    PairReads(size, memory, more);
    PairReads(memAlign, table, last);
    Behind(PutU(size), PutU(memory), more);
    InfoOf(PutU(size) + (PutU(memory) + more), more, used);
  }

  lemma {:induction false} InfoOf(s: seq<byte>, more: seq<byte>, used: nat)
    requires PairAt(s).Some? && From(s, PairAt(s).value.1) == more && PairAt(more).Some?
    ensures First(InfoAt(s, used)) == Some(Sizes(PairAt(s).value.0.1, PairAt(more).value.0.1))
  {
    hide PairAt, From;
  }

  lemma Regrouped(a: seq<byte>, b: seq<byte>, c: seq<byte>, d: seq<byte>, e: seq<byte>, t: seq<byte>)
    ensures a + (b + c + d + e) + t == a + (b + (c + (d + (e + t))))
  {
  }

  lemma Behind(a: seq<byte>, b: seq<byte>, more: seq<byte>)
    ensures From(a + (b + more), |a| + |b|) == more
  {
  }
}

/** The rewriter that moves the imports a host module cannot provide to a module of their own, and
    the reader of the dynamic-linking section. */
module ImportPatch {
  import opened Bytes
  import opened Leb128
  import opened ModuleTypes
  import opened ModuleCodec
  import O = Opcodes

  // ---- 64-bit LEB128 ----

  /** Groups of seven bits, lowest first. */
  function Groups(s: seq<byte>): nat {
    if s == [] then 0 else s[0] % 128 + 128 * Groups(s[1..])
  }

  /** How many bytes a number at the head of s takes; all of them if it does not end. */
  function Span(s: seq<byte>): (n: nat)
    ensures n <= |s|
  {
    if s == [] then 0 else if s[0] < 128 then 1 else 1 + Span(s[1..])
  }

  /** The value read, cut to 64 bits, and the bytes taken. Running out of bytes is no error. */
  function Leb64(s: seq<byte>): (r: (nat, nat))
    ensures r.1 <= |s|
  {
    (Groups(s[..Span(s)]) % TWO_64, Span(s))
  }

  lemma {:induction false} Leb64IsReadU(s: seq<byte>)
    ensures ReadU(s).Some? ==> Span(s) == ReadU(s).value.1 && Groups(s[..Span(s)]) == ReadU(s).value.0
  {
    if s != [] {
      if s[0] < 128 {
        assert s[..1] == [s[0]] && [s[0]][1..] == [];
      } else {
        Leb64IsReadU(s[1..]);
        assert s[..Span(s)][1..] == s[1..][..Span(s[1..])];
      }
    }
  }

  lemma Leb64PutU(v: nat, t: seq<byte>)
    requires v < TWO_64
    ensures Leb64(PutU(v) + t) == (v, |PutU(v)|)
  {
    hide PutU, ReadU, Groups, Span;
    ReadPutU(v, t);
    Leb64IsReadU(PutU(v) + t);
  }

  lemma {:induction false} GroupsSnoc(s: seq<byte>, x: byte)
    ensures Groups(s + [x]) == Groups(s) + Shl(x % 128, 7 * |s|)
  {
    if s != [] {
      assert (s + [x])[1..] == s[1..] + [x];
      GroupsSnoc(s[1..], x);
      Shl7(Shl(x % 128, 7 * |s[1..]|));
      ShlShl(x % 128, 7 * |s[1..]|, 7);
    } else {
      assert [x][1..] == [];
      assert s + [x] == [x];
    }
  }

  lemma GroupsStep(s: seq<byte>, i: nat)
    requires i < |s|
    ensures (Groups(s[..i]) % TWO_64 + Shl(s[i] % 128, 7 * i)) % TWO_64 == Groups(s[..i + 1]) % TWO_64
  {
    hide Shl, Groups;
    GroupsSnoc(s[..i], s[i]);
    assert s[..i] + [s[i]] == s[..i + 1];
    AddGroup(Groups(s[..i]), Shl(s[i] % 128, 7 * i), TWO_64);
  }

  lemma {:induction false} SpanAt(s: seq<byte>, n: nat)
    requires n <= |s| && (forall k | 0 <= k < n :: s[k] >= 128)
    ensures n < |s| && s[n] < 128 ==> Span(s) == n + 1
    ensures n == |s| ==> Span(s) == n
    decreases n
  {
    if n > 0 {
      SpanAt(s[1..], n - 1);
    }
  }

  method ReadLEB128U(data: seq<byte>) returns (v: nat, n: nat)
    ensures (v, n) == Leb64(data)
  {
    v := 0;
    var shift, i := 0, 0;
    while i < |data|
      invariant 0 <= i <= |data| && shift == 7 * i
      invariant v == Groups(data[..i]) % TWO_64
      invariant forall k | 0 <= k < i :: data[k] >= 128
    {
      hide Groups, Span, Shl;
      GroupsStep(data, i);
      v := (v + Shl(data[i] % 128, shift)) % TWO_64;
      if data[i] < 128 {
        SpanAt(data, i);
        return v, i + 1;
      }
      shift, i := shift + 7, i + 1;
    }
    SpanAt(data, |data|);
    assert data[..|data|] == data;
    n := |data|;
  }

  lemma PutUStep(v: nat)
    ensures PutU(v) == if v / 128 > 0 then [v % 128 + 128] + PutU(v / 128) else [v % 128]
  {
  }

  method EncodeLEB128U(v: nat) returns (buf: seq<byte>)
    ensures buf == PutU(v)
  {
    hide PutU;
    PutUStep(v);
    if v == 0 {
      return [0];
    }
    buf := [];
    var rest := v;
    while rest > 0
      invariant if rest > 0 then buf + PutU(rest) == PutU(v) else buf == PutU(v)
    {
      var x := rest % 128;
      PutUStep(rest);
      rest := rest / 128;
      if rest > 0 {
        buf := buf + [x + 128];
      } else {
        buf := buf + [x];
      }
    }
  }

  // ---- One import ----

  const ENV: seq<byte> := [0x65, 0x6e, 0x76]
  const EXTRAS: seq<byte> := [0x65, 0x6e, 0x76, 0x2e, 0x65, 0x78, 0x74, 0x72, 0x61, 0x73]

  function NameFrom(s: seq<byte>): (r: Option<(seq<byte>, nat)>)
    ensures r.Some? ==> r.value.1 <= |s| && |r.value.0| <= |s|
  {
    var (v, n) := Leb64(s);
    if n + v > |s| then None else Some((s[n..n + v], n + v))
  }

  /** The limits behind a flag byte: a maximum is only looked for behind flag 1. */
  function PatchLimits(flag: byte, s: seq<byte>): (r: (seq<byte>, nat))
    ensures r.1 <= |s|
  {
    var (min, n) := Leb64(s);
    if flag == 1 then
      var (max, m) := Leb64(s[n..]);
      (PutU(min) + PutU(max), n + m)
    else (PutU(min), n)
  }

  /** The type of an import, copied; None is a read past the end. */
  function PatchType(kind: byte, s: seq<byte>): (r: Option<(seq<byte>, nat)>)
    ensures r.Some? ==> r.value.1 <= |s|
  {
    if kind == 0 then
      var (t, n) := Leb64(s);
      Some((PutU(t), n))
    else if kind == 1 then
      if |s| < 2 then None
      else
        var (l, n) := PatchLimits(s[1], s[2..]);
        Some(([s[0], s[1]] + l, 2 + n))
    else if kind == 2 then
      if |s| < 1 then None
      else
        var (l, n) := PatchLimits(s[0], s[1..]);
        Some(([s[0]] + l, 1 + n))
    else if kind == 3 then
      if |s| < 2 then None else Some((s[..2], 2))
    else Some(([], 0))
  }

  function NewModule(mod: seq<byte>, kind: byte): seq<byte> {
    if mod == ENV && kind != 0 then EXTRAS else mod
  }

  function PatchOne(s: seq<byte>): (r: Option<(seq<byte>, nat)>)
    ensures r.Some? ==> 1 <= r.value.1 <= |s|
  {
    var a := NameFrom(s);
    if a.None? then None
    else
      var (mod, n) := a.value;
      var b := NameFrom(s[n..]);
      if b.None? then None
      else
        var (name, m) := b.value;
        if n + m >= |s| then None
        else
          var kind := s[n + m];
          var d := PatchType(kind, s[n + m + 1..]);
          if d.None? then None
          else
            Some((PutBytes(NewModule(mod, kind)) + PutBytes(name) + [kind] + d.value.0, n + m + 1 + d.value.1))
  }

  function PatchMany(s: seq<byte>, k: nat): Option<seq<byte>>
    decreases k
  {
    if k == 0 then Some([])
    else
      var r := PatchOne(s);
      if r.None? then None
      else
        var rest := PatchMany(s[r.value.1..], k - 1);
        if rest.None? then None else Some(r.value.0 + rest.value)
  }

  /** A count that is negative as a signed number means no turn of the loop. */
  function Turns(count: nat): nat { if count < TWO_63 then count else 0 }

  function RewriteSection(data: seq<byte>): Option<seq<byte>> {
    var (count, n) := Leb64(data);
    var items := PatchMany(data[n..], Turns(count));
    if items.None? then None else Some(PutU(count) + items.value)
  }

  // ---- What the patched import means ----

  function Redirected(i: Import): Import {
    if i.mod == ENV && !i.desc.FuncImport? then i.(mod := EXTRAS) else i
  }

  lemma NameIsBytes(s: seq<byte>)
    requires |s| < TWO_32 && NameFrom(s).Some? && BytesAt(s).Some?
    ensures NameFrom(s) == BytesAt(s)
  {
    Leb64IsReadU(s);
    var v := ReadU(s).value.0;
    ModMod(v);
    SmallMod(v % TWO_64);
  }

  lemma ModMod(v: nat)
    ensures v % TWO_64 % TWO_32 == v % TWO_32
  {
    var q := v / TWO_64;
    assert v == (q * TWO_32) * TWO_32 + v % TWO_64;
    ModAdd(v % TWO_64, q * TWO_32);
  }

  lemma ModAdd(a: nat, q: nat)
    ensures (q * TWO_32 + a) % TWO_32 == a % TWO_32
  {
    var r := a % TWO_32;
    var k := a / TWO_32;
    assert q * TWO_32 + a == (q + k) * TWO_32 + r;
  }

  lemma SmallMod(v: nat)
    ensures v < TWO_32 ==> v % TWO_32 == v
  {
  }

  /** Cutting a number to 64 bits first does not change what a 32-bit reader sees. */
  lemma Rewritten(s: seq<byte>, t: seq<byte>)
    requires O.U32At(s).Some?
    ensures var (v, n) := Leb64(s);
            n == O.U32At(s).value.1 && O.U32At(PutU(v) + t) == Some((O.U32At(s).value.0, |PutU(v)|))
  {
    Leb64IsReadU(s);
    ReadPutU(Leb64(s).0, t);
    ModMod(ReadU(s).value.0);
  }

  lemma LimitsPatched(flag: byte, s: seq<byte>, table: bool, t: seq<byte>)
    requires LimitsAt([flag] + s, table).Some?
    ensures var (out, n) := PatchLimits(flag, s);
            var (l, m) := LimitsAt([flag] + s, table).value;
            && (flag != 3 ==> m == 1 + n && LimitsAt([flag] + out + t, table) == Some((l, 1 + |out|)))
            && (flag == 3 ==> 1 + n < m)
  {
    hide ReadU, PutU, O.U32At, Leb64;
    var w := [flag] + s;
    assert w[1..] == s;
    var (min, n) := Leb64(s);
    var more := if flag == 1 then PutU(Leb64(s[n..]).0) else [];
    Rewritten(s, more + t);
    assert w[1 + n..] == s[n..];
    var u := [flag] + PatchLimits(flag, s).0 + t;
    assert u[1..] == PutU(min) + (more + t);
    if flag == 1 {
      Rewritten(s[n..], t);
      assert u[1 + |PutU(min)|..] == more + t;
    } else if flag == 3 {
      SomeBytes(s[n..]);
    }
  }

  lemma SomeBytes(s: seq<byte>)
    requires O.U32At(s).Some?
    ensures O.U32At(s).value.1 >= 1
  {
  }

  /** The flag byte the limits of an import of this kind start with; 0 if it has none. */
  function FlagOf(kind: byte, s: seq<byte>): byte {
    if kind == 1 && |s| >= 2 then s[1] else if kind == 2 && |s| >= 1 then s[0] else 0
  }

  lemma TypePatched(kind: byte, s: seq<byte>, t: seq<byte>)
    requires DescAt(kind, s).Some? && PatchType(kind, s).Some?
    ensures var (out, n) := PatchType(kind, s).value;
            var (d, m) := DescAt(kind, s).value;
            && (FlagOf(kind, s) != 3 ==> m == n && DescAt(kind, out + t) == Some((d, |out|)))
            && (FlagOf(kind, s) == 3 ==> n < m)
            && (d.FuncImport? <==> kind == 0)
  {
    hide O.U32At, Leb64, LimitsAt, PatchLimits;
    var (out, n) := PatchType(kind, s).value;
    if kind == 0 {
      Rewritten(s, t);
    } else if kind == 1 {
      assert [s[1]] + s[2..] == s[1..];
      LimitsPatched(s[1], s[2..], true, t);
      assert (out + t)[1..] == [s[1]] + PatchLimits(s[1], s[2..]).0 + t;
    } else if kind == 2 {
      assert [s[0]] + s[1..] == s;
      LimitsPatched(s[0], s[1..], false, t);
      assert out + t == [s[0]] + PatchLimits(s[0], s[1..]).0 + t;
    }
  }

  /** Where the type of the import at the head of s begins, with its kind. */
  function TypeOf(s: seq<byte>): Option<(byte, seq<byte>)> {
    var a := NameFrom(s);
    if a.None? then None
    else
      var b := NameFrom(s[a.value.1..]);
      if b.None? || a.value.1 + b.value.1 >= |s| then None
      else
        var p := a.value.1 + b.value.1;
        Some((s[p], s[p + 1..]))
  }

  /** Limits with a flag byte 3, behind which the rewriter does not see the maximum. */
  predicate HidesMax(s: seq<byte>) {
    var t := TypeOf(s);
    t.Some? && FlagOf(t.value.0, t.value.1) == 3
  }

  /** Reading the patched import gives the original one with its module name redirected, whatever
      follows; and the rewriter takes the same bytes as a reader does, exactly unless the limits
      have a flag byte 3. */
  lemma PatchOneMeans(s: seq<byte>, t: seq<byte>)
    requires |s| < TWO_32 && ImportAt(s).Some? && PatchOne(s).Some?
    ensures var (i, n) := ImportAt(s).value;
            var (out, m) := PatchOne(s).value;
            && (m == n <==> !HidesMax(s))
            && (!HidesMax(s) ==> ImportAt(out + t) == Some((Redirected(i), |out|)))
  {
    hide NameFrom, BytesAt, PutBytes, PatchType, DescAt, FlagOf;
    NameIsBytes(s);
    var (mod, a) := NameFrom(s).value;
    NameIsBytes(s[a..]);
    var (name, b) := NameFrom(s[a..]).value;
    var kind, rest := s[a + b], s[a + b + 1..];
    TypePatched(kind, rest, t);
    var d := PatchType(kind, rest).value.0;
    var newMod := NewModule(mod, kind);
    PatchedText(newMod, name, kind, d, t);
    var w := PutBytes(newMod) + PutBytes(name) + [kind] + d + t;
    assert PatchOne(s).value.0 + t == w;
  }

  /** The import of a shared memory with a maximum is such an import: the rewriter stops short of its
      end, and takes the maximum for the start of the next import. */
  lemma SharedMaxCut(i: Import)
    requires GoodImport(i) && i.desc.MemImport? && i.desc.limits.shared && i.desc.limits.hasMax
    ensures var s := PutImport(i);
            && ImportAt(s) == Some((i, |s|)) && HidesMax(s)
            && (|s| < TWO_32 ==> PatchOne(s).Some? && PatchOne(s).value.1 < |s|)
  {
    hide PutBytes, BytesAt, NameFrom, PutU, ImportAt, PatchLimits;
    var s, d := PutImport(i), PutDesc(i.desc);
    ImportInverse(i);
    assert s + [] == s && d + [] == d;
    PatchedText(i.mod, i.name, 2, d, []);
    assert PutBytes(i.mod) + PutBytes(i.name) + [2] + d + [] == s;
    assert TypeOf(s) == Some((2, d));
    if |s| < TWO_32 {
      PatchOneMeans(s, []);
    }
  }

  /** For one, a shared memory of one page that may grow to two. */
  lemma SharedMemoryCut()
    ensures var i := Import([101, 110, 118], [109], MemImport(Limits(1, 2, true, true)));
            var s := PutImport(i);
            ImportAt(s) == Some((i, |s|)) && PatchOne(s).Some? && PatchOne(s).value.1 < |s|
  {
    var i := Import([101, 110, 118], [109], MemImport(Limits(1, 2, true, true)));
    SharedMaxCut(i);
    assert |PutImport(i)| < TWO_32 by {
      FewBytes(i);
    }
  }

  lemma FewBytes(i: Import)
    requires |i.mod| < 64 && |i.name| < 64 && i.desc.MemImport? && i.desc.limits.min < 64 && i.desc.limits.max < 64
    ensures |PutImport(i)| < 200
  {
  }

  lemma PatchedText(mod: seq<byte>, name: seq<byte>, kind: byte, d: seq<byte>, t: seq<byte>)
    requires |mod| < TWO_32 && |name| < TWO_32
    ensures var w := PutBytes(mod) + PutBytes(name) + [kind] + d + t;
            var n, m := |PutBytes(mod)|, |PutBytes(name)|;
            && BytesAt(w) == Some((mod, n)) && BytesAt(w[n..]) == Some((name, m))
            && n + m < |w| && w[n + m] == kind && w[n + m + 1..] == d + t
            && NameFrom(w) == Some((mod, n)) && NameFrom(w[n..]) == Some((name, m))
  {
    hide PutBytes, BytesAt, NameFrom;
    var a, b := PutBytes(mod), PutBytes(name);
    var w := a + b + [kind] + d + t;
    var tail := b + [kind] + d + t;
    assert w == a + tail;
    assert tail == b + ([kind] + d + t);
    BytesRoundTrip(mod, tail);
    BytesRoundTrip(name, [kind] + d + t);
    NameRoundTrip(mod, tail);
    NameRoundTrip(name, [kind] + d + t);
    assert w[|a|..] == tail;
  }

  lemma NameRoundTrip(x: seq<byte>, t: seq<byte>)
    requires |x| < TWO_64
    ensures NameFrom(PutBytes(x) + t) == Some((x, |PutBytes(x)|))
  {
    hide PutU, Leb64;
    var c := PutU(|x|);
    Leb64PutU(|x|, x + t);
    assert PutBytes(x) + t == c + (x + t);
    assert (c + (x + t))[|c|..|c| + |x|] == x;
  }

  // ---- The whole section ----

  /** No import among the next k has limits with flag byte 3. */
  predicate NoneHides(s: seq<byte>, k: nat)
    decreases k
  {
    k > 0 && PatchOne(s).Some? ==> !HidesMax(s) && NoneHides(s[PatchOne(s).value.1..], k - 1)
  }

  function Redirect(xs: seq<Import>): (r: seq<Import>)
    ensures |r| == |xs|
  {
    if xs == [] then [] else [Redirected(xs[0])] + Redirect(xs[1..])
  }

  lemma {:induction false} ManyMean(s: seq<byte>, k: nat, t: seq<byte>)
    requires |s| < TWO_32 && NoneHides(s, k)
    requires ReadMany(s, k, ImportAt).Some? && PatchMany(s, k).Some?
    ensures var out := PatchMany(s, k).value;
            ReadMany(out + t, k, ImportAt) == Some((Redirect(ReadMany(s, k, ImportAt).value.0), |out|))
    decreases k
  {
    hide ImportAt, PatchOne, HidesMax, Redirected, ReadMany, PatchMany;
    if k > 0 {
      ReadStep(s, k);
      PatchStep(s, k);
      var (x, n) := ImportAt(s).value;
      var out := PatchOne(s).value.0;
      var rest := PatchMany(s[n..], k - 1);
      PatchOneMeans(s, t);
      ManyMean(s[n..], k - 1, t);
      PatchOneMeans(s, rest.value + t);
      assert PatchMany(s, k).value + t == out + (rest.value + t);
      assert (out + (rest.value + t))[|out|..] == rest.value + t;
      ReadStep(out + (rest.value + t), k);
      var xs := ReadMany(s[n..], k - 1, ImportAt).value.0;
      assert ([x] + xs)[1..] == xs;
    } else {
      NoImports(s, t);
    }
  }

  lemma ReadStep(s: seq<byte>, k: nat)
    requires k > 0
    ensures var i := ImportAt(s);
            ReadMany(s, k, ImportAt) ==
            if i.None? || i.value.1 > |s| then None
            else
              var rest := ReadMany(s[i.value.1..], k - 1, ImportAt);
              if rest.None? then None else Some(([i.value.0] + rest.value.0, i.value.1 + rest.value.1))
  {
    hide ImportAt;
  }

  lemma PatchStep(s: seq<byte>, k: nat)
    requires k > 0 && PatchMany(s, k).Some?
    ensures var r := PatchOne(s);
            && r.Some? && PatchMany(s[r.value.1..], k - 1).Some?
            && PatchMany(s, k) == Some(r.value.0 + PatchMany(s[r.value.1..], k - 1).value)
  {
    hide PatchOne;
  }

  lemma NoImports(s: seq<byte>, t: seq<byte>)
    ensures PatchMany(s, 0) == Some([]) && ReadMany(s, 0, ImportAt) == ReadMany([] + t, 0, ImportAt) == Some(([], 0))
  {
  }

  /** Parsing the patched section gives the original imports in order, with only the imports from
      "env" that are no functions renamed to "env.extras". */
  lemma SectionMeans(data: seq<byte>, t: seq<byte>)
    requires |data| < TWO_32 && ReadVec(data, ImportAt).Some? && RewriteSection(data).Some?
    requires ReadU(data).value.0 < TWO_32 && NoneHides(data[ReadU(data).value.1..], ReadU(data).value.0)
    ensures var out := RewriteSection(data).value;
            ReadVec(out + t, ImportAt) == Some((Redirect(ReadVec(data, ImportAt).value.0), |out|))
  {
    hide ImportAt, PatchOne, HidesMax, NoneHides, ReadMany, PatchMany, Redirect, PutU;
    Leb64IsReadU(data);
    var (k, n) := ReadU(data).value;
    ManyMean(data[n..], k, t);
    var items := PatchMany(data[n..], k).value;
    U32RoundTrip(k, items + t);
    assert RewriteSection(data).value + t == PutU(k) + (items + t);
    assert (PutU(k) + (items + t))[|PutU(k)|..] == items + t;
  }

  /** Import by import: the same name and type, and the same module but for what is no function of
      "env". */
  lemma {:induction false} RedirectAt(xs: seq<Import>, k: nat)
    requires k < |xs|
    ensures |Redirect(xs)| == |xs|
    ensures var x, y := xs[k], Redirect(xs)[k];
            && y.name == x.name && y.desc == x.desc
            && y.mod == if x.mod == Ascii("env") && !x.desc.FuncImport? then Ascii("env.extras") else x.mod
  {
    EnvNames();
    hide Ascii;
    if k > 0 {
      RedirectAt(xs[1..], k - 1);
    }
  }

  lemma EnvNames()
    ensures ENV == Ascii("env") && EXTRAS == Ascii("env.extras")
  {
  }

  // ---- Once is enough ----

  lemma LimitsAgain(flag: byte, s: seq<byte>, t: seq<byte>)
    ensures var (out, n) := PatchLimits(flag, s); PatchLimits(flag, out + t) == (out, |out|)
  {
    hide PutU, Leb64;
    var (min, n) := Leb64(s);
    Cut(s);
    if flag == 1 {
      var (max, m) := Leb64(s[n..]);
      Cut(s[n..]);
      Leb64PutU(min, PutU(max) + t);
      Leb64PutU(max, t);
      assert PutU(min) + PutU(max) + t == PutU(min) + (PutU(max) + t);
      assert (PutU(min) + (PutU(max) + t))[|PutU(min)|..] == PutU(max) + t;
    } else {
      Leb64PutU(min, t);
    }
  }

  lemma Cut(s: seq<byte>)
    ensures Leb64(s).0 < TWO_64
  {
  }

  lemma TypeAgain(kind: byte, s: seq<byte>, t: seq<byte>)
    requires PatchType(kind, s).Some?
    ensures var out := PatchType(kind, s).value.0; PatchType(kind, out + t) == Some((out, |out|))
  {
    hide Leb64, PatchLimits, PutU;
    var out := PatchType(kind, s).value.0;
    if kind == 0 {
      Cut(s);
      Leb64PutU(Leb64(s).0, t);
    } else if kind == 1 {
      LimitsAgain(s[1], s[2..], t);
      assert (out + t)[2..] == PatchLimits(s[1], s[2..]).0 + t;
    } else if kind == 2 {
      LimitsAgain(s[0], s[1..], t);
      assert (out + t)[1..] == PatchLimits(s[0], s[1..]).0 + t;
    } else if kind == 3 {
      assert (out + t)[..2] == out;
    } else {
      assert out == [];
    }
  }

  lemma PatchOneAgain(s: seq<byte>, t: seq<byte>)
    requires |s| < TWO_32 && PatchOne(s).Some?
    ensures var out := PatchOne(s).value.0; PatchOne(out + t) == Some((out, |out|))
  {
    hide NameFrom, BytesAt, PutBytes, PatchType;
    var (mod, a) := NameFrom(s).value;
    var (name, b) := NameFrom(s[a..]).value;
    var kind, rest := s[a + b], s[a + b + 1..];
    var d := PatchType(kind, rest).value.0;
    TypeAgain(kind, rest, t);
    PatchedText(NewModule(mod, kind), name, kind, d, t);
    assert PatchOne(s).value.0 + t == PutBytes(NewModule(mod, kind)) + PutBytes(name) + [kind] + d + t;
    assert NewModule(NewModule(mod, kind), kind) == NewModule(mod, kind);
  }

  lemma {:induction false} ManyAgain(s: seq<byte>, k: nat)
    requires |s| < TWO_32 && PatchMany(s, k).Some?
    ensures PatchMany(PatchMany(s, k).value, k) == PatchMany(s, k)
    decreases k
  {
    hide PatchOne;
    if k > 0 {
      var (out, n) := PatchOne(s).value;
      var rest := PatchMany(s[n..], k - 1).value;
      ManyAgain(s[n..], k - 1);
      PatchOneAgain(s, rest);
      assert (out + rest)[|out|..] == rest;
    }
  }

  /** Patching a patched section changes nothing more. */
  lemma SectionAgain(data: seq<byte>)
    requires |data| < TWO_32 && RewriteSection(data).Some?
    ensures RewriteSection(RewriteSection(data).value) == RewriteSection(data)
  {
    hide PatchMany, PutU, Leb64;
    var (count, n) := Leb64(data);
    var items := PatchMany(data[n..], Turns(count)).value;
    Cut(data);
    Leb64PutU(count, items);
    ManyAgain(data[n..], Turns(count));
    assert (PutU(count) + items)[|PutU(count)|..] == items;
  }

  // ---- The whole module ----

  function PatchPayload(id: byte, payload: seq<byte>): Option<seq<byte>> {
    if id == 2 then RewriteSection(payload) else Some(payload)
  }

  function PatchSections(s: seq<byte>): Option<seq<byte>>
    decreases |s|
  {
    if s == [] then Some([])
    else
      var r := NameFrom(s[1..]);
      if r.None? then None
      else
        var (payload, n) := r.value;
        var p := PatchPayload(s[0], payload);
        var rest := PatchSections(s[1 + n..]);
        if p.None? || rest.None? then None else Some(PutSection(Section(s[0], p.value)) + rest.value)
  }

  /** None: too short, the wrong magic, or a read past the end. */
  function Patch(b: seq<byte>): Option<seq<byte>> {
    if |b| < 8 || b[..4] != MAGIC then None
    else
      var r := PatchSections(b[8..]);
      if r.None? then None else Some(b[..8] + r.value)
  }

  /** Two lists of sections that differ in the import sections only. */
  ghost predicate PatchedSections(xs: seq<Section>, ys: seq<Section>) {
    && |ys| == |xs|
    && forall j | 0 <= j < |xs| :: ys[j].id == xs[j].id && PatchPayload(xs[j].id, xs[j].payload) == Some(ys[j].payload)
  }

  lemma SectionReads(x: Section, t: seq<byte>)
    requires |x.payload| < TWO_32
    ensures SectionAt(PutSection(x) + t) == Some((x, |PutSection(x)|))
  {
    hide BytesAt, PutBytes;
    BytesRoundTrip(x.payload, t);
    assert (PutSection(x) + t)[1..] == PutBytes(x.payload) + t;
  }

  /** The patched module has the original's sections, in order; only import sections differ, and
      they as SectionMeans says. */
  lemma {:induction false} ModuleMeans(s: seq<byte>)
    requires |s| < TWO_32 && Sections(s).Some? && PatchSections(s).Some? && |PatchSections(s).value| < TWO_32
    ensures Sections(PatchSections(s).value).Some?
    ensures PatchedSections(Sections(s).value, Sections(PatchSections(s).value).value)
    decreases |s|
  {
    hide NameFrom, BytesAt, PatchPayload, PutSection, SectionAt;
    if s != [] {
      SectionHead(s);
      NameIsBytes(s[1..]);
      var (payload, n) := NameFrom(s[1..]).value;
      var rest := PatchSections(s[1 + n..]).value;
      var y := Section(s[0], PatchPayload(s[0], payload).value);
      SectionSize(y);
      ModuleMeans(s[1 + n..]);
      SectionReads(y, rest);
      assert (PutSection(y) + rest)[|PutSection(y)|..] == rest;
      assert PutSection(y) + rest != [];
    }
  }

  lemma SectionHead(s: seq<byte>)
    requires s != []
    ensures SectionAt(s) == var r := BytesAt(s[1..]);
                            if r.None? then None else Some((Section(s[0], r.value.0), 1 + r.value.1))
  {
  }

  lemma SectionIs(x: Section)
    ensures PutSection(x) == [x.id] + PutBytes(x.payload)
  {
  }

  lemma SectionSize(x: Section)
    ensures |PutSection(x)| > |x.payload|
  {
  }

  lemma {:induction false} SectionsAgain(s: seq<byte>)
    requires |s| < TWO_32 && PatchSections(s).Some? && |PatchSections(s).value| < TWO_32
    ensures PatchSections(PatchSections(s).value) == PatchSections(s)
    decreases |s|
  {
    hide NameFrom, BytesAt, PutBytes, RewriteSection;
    if s != [] {
      var (payload, n) := NameFrom(s[1..]).value;
      var rest := PatchSections(s[1 + n..]).value;
      var y := PatchPayload(s[0], payload).value;
      SectionSize(Section(s[0], y));
      SectionsAgain(s[1 + n..]);
      NameRoundTrip(y, rest);
      if s[0] == 2 {
        SectionAgain(payload);
      }
      var out := PutSection(Section(s[0], y)) + rest;
      assert out[1..] == PutBytes(y) + rest;
      assert out[1 + |PutBytes(y)|..] == rest;
    }
  }

  /** Patching twice is patching once. */
  lemma PatchAgain(b: seq<byte>)
    requires |b| < TWO_32 && Patch(b).Some? && |Patch(b).value| < TWO_32
    ensures Patch(Patch(b).value) == Patch(b)
  {
    hide PatchSections;
    var out := Patch(b).value;
    SectionsAgain(b[8..]);
    assert out[..8] == b[..8] && out[8..] == PatchSections(b[8..]).value;
    assert out[..4] == out[..8][..4] == b[..4];
  }

  // ---- The program ----

  method CopyLimits(data: seq<byte>, start: nat, flag: byte) returns (out: seq<byte>, pos: nat)
    requires start <= |data|
    ensures start <= pos <= |data| && (out, pos - start) == PatchLimits(flag, data[start..])
  {
    hide Leb64, PutU;
    var min, n := ReadLEB128U(data[start..]);
    out := EncodeLEB128U(min);
    pos := start + n;
    assert data[start..][n..] == data[pos..];
    if flag == 1 {
      var max, m := ReadLEB128U(data[pos..]);
      var w := EncodeLEB128U(max);
      out := out + w;
      pos := pos + m;
    }
  }

  method CopyType(data: seq<byte>, start: nat, kind: byte) returns (out: seq<byte>, pos: nat, ok: bool)
    requires start <= |data|
    ensures ok <==> PatchType(kind, data[start..]).Some?
    ensures ok ==> start <= pos && PatchType(kind, data[start..]) == Some((out, pos - start))
  {
    hide Leb64, PutU, PatchLimits;
    ghost var s := data[start..];
    out, pos, ok := [], start, true;
    if kind == 0 {
      var v, n := ReadLEB128U(data[pos..]);
      out := EncodeLEB128U(v);
      pos := pos + n;
    } else if kind == 1 {
      if pos + 2 > |data| {
        return [], pos, false;
      }
      assert s[2..] == data[start + 2..];
      var l, end := CopyLimits(data, pos + 2, data[pos + 1]);
      out, pos := [data[pos], data[pos + 1]] + l, end;
    } else if kind == 2 {
      if pos + 1 > |data| {
        return [], pos, false;
      }
      assert s[1..] == data[start + 1..];
      var l, end := CopyLimits(data, pos + 1, data[pos]);
      out, pos := [data[pos]] + l, end;
    } else if kind == 3 {
      if pos + 2 > |data| {
        return [], pos, false;
      }
      out := data[pos..pos + 2];
      assert out == s[..2];
      pos := pos + 2;
    }
  }

  method ReadNameAt(data: seq<byte>, start: nat) returns (name: seq<byte>, pos: nat, ok: bool)
    requires start <= |data|
    ensures ok <==> NameFrom(data[start..]).Some?
    ensures ok ==> (name, pos - start) == NameFrom(data[start..]).value && start <= pos <= |data|
  {
    hide Leb64;
    var v, n := ReadLEB128U(data[start..]);
    pos := start + n;
    if pos + v > |data| {
      return [], pos, false;
    }
    name, ok := data[pos..pos + v], true;
    assert data[start..][n..n + v] == name;
    pos := pos + v;
  }

  method EncodeName(name: seq<byte>) returns (out: seq<byte>)
    ensures out == PutBytes(name)
  {
    out := EncodeLEB128U(|name|);
    out := out + name;
  }

  method RewriteOne(data: seq<byte>, start: nat) returns (out: seq<byte>, pos: nat, ok: bool)
    requires start <= |data|
    ensures ok <==> PatchOne(data[start..]).Some?
    ensures ok ==> (out, pos - start) == PatchOne(data[start..]).value && start <= pos <= |data|
  {
    hide NameFrom, PatchType, PutBytes;
    var s := data[start..];
    out := [];
    var mod, name, d;
    mod, pos, ok := ReadNameAt(data, start);
    if !ok {
      return;
    }
    assert s[pos - start..] == data[pos..];
    ghost var n := pos - start;
    name, pos, ok := ReadNameAt(data, pos);
    if !ok {
      return;
    }
    if pos >= |data| {
      return [], pos, false;
    }
    var kind := data[pos];
    assert s[pos - start] == kind;
    pos := pos + 1;
    assert s[pos - start..] == data[pos..];
    d, pos, ok := CopyType(data, pos, kind);
    if !ok {
      return;
    }
    var newMod := mod;
    if mod == ENV && kind != 0 {
      newMod := EXTRAS;
    }
    var a := EncodeName(newMod);
    var b := EncodeName(name);
    out := a + b + [kind] + d;
  }

  method RewriteImportSection(data: seq<byte>) returns (out: seq<byte>, ok: bool)
    ensures ok <==> RewriteSection(data).Some?
    ensures ok ==> RewriteSection(data) == Some(out)
  {
    hide Leb64, PatchOne;
    var count, pos := ReadLEB128U(data);
    out := EncodeLEB128U(count);
    ghost var head := out;
    ghost var all := PatchMany(data[pos..], Turns(count));
    ok := true;
    var i := 0;
    while i < (if count < TWO_63 then count else 0)
      invariant 0 <= i <= Turns(count) && pos <= |data|
      invariant
        var rest := PatchMany(data[pos..], Turns(count) - i);
        (rest.Some? <==> all.Some?) && (rest.Some? ==> out + rest.value == head + all.value)
    {
      ghost var s, before := data[pos..], out;
      var item, next;
      ghost var was := pos;
      item, next, ok := RewriteOne(data, pos);
      if !ok {
        return [], false;
      }
      assert s[next - was..] == data[next..];
      pos := next;
      out := out + item;
      ghost var rest := PatchMany(data[pos..], Turns(count) - i - 1);
      assert rest.Some? ==> before + (item + rest.value) == out + rest.value;
      i := i + 1;
    }
    assert out + [] == out;
  }

  method PatchWasmImports(b: seq<byte>) returns (out: seq<byte>, ok: bool)
    ensures ok <==> Patch(b).Some?
    ensures ok ==> Patch(b) == Some(out)
  {
    hide NameFrom, RewriteSection, PutBytes, PutSection;
    if |b| < 8 || b[..4] != MAGIC {
      return [], false;
    }
    out := b[..8];
    ghost var head, all := out, PatchSections(b[8..]);
    var pos := 8;
    while pos < |b|
      invariant 8 <= pos <= |b|
      invariant
        var rest := PatchSections(b[pos..]);
        (rest.Some? <==> all.Some?) && (rest.Some? ==> out + rest.value == head + all.value)
      decreases |b| - pos
    {
      ghost var s, start, before := b[pos..], pos, out;
      var id := b[pos];
      assert s[1..] == b[pos + 1..];
      var payload;
      payload, pos, ok := ReadNameAt(b, pos + 1);
      if !ok {
        return [], false;
      }
      assert s[pos - start..] == b[pos..];
      if id == 2 {
        payload, ok := RewriteImportSection(payload);
        if !ok {
          return [], false;
        }
      }
      var body := EncodeName(payload);
      out := out + [id] + body;
      SectionIs(Section(id, payload));
      ghost var rest := PatchSections(b[pos..]);
      assert rest.Some? ==> before + (PutSection(Section(id, payload)) + rest.value) == out + rest.value;
    }
    assert out + [] == out;
    ok := true;
  }
}

/** The module object of the pass: reading it, writing it, and the three transforms that change
    its fields in place. */
module WasmModule {
  import opened Bytes
  import opened Leb128
  import opened ModuleTypes
  import opened ModuleCodec
  import opened Reading
  import opened Splice
  import opened Guard
  import CallGraph
  import O = Opcodes

  // ---- Strip ----

  /** The exports that stay. */
  function KeptExports(es: seq<Export>, roots: set<seq<byte>>): seq<Export> {
    if es == [] then []
    else
      var init, e := es[..|es| - 1], es[|es| - 1];
      KeptExports(init, roots) + if e.name in roots then [e] else []
  }

  /** `after` are the entries of `before` at these positions: those whose names are roots, each of
      them, in the order they were in. */
  predicate KeptAt(before: seq<Export>, after: seq<Export>, roots: set<seq<byte>>, at: seq<nat>) {
    && |at| == |after|
    && (forall j, k | 0 <= j < k < |at| :: at[j] < at[k])
    && (forall k | 0 <= k < |at| :: at[k] < |before| && after[k] == before[at[k]])
    && (forall i | 0 <= i < |before| :: before[i].name in roots <==> i in at)
  }

  ghost predicate KeepsRoots(before: seq<Export>, after: seq<Export>, roots: set<seq<byte>>) {
    exists at: seq<nat> :: KeptAt(before, after, roots, at)
  }

  /** The positions of the exports that are no roots. */
  function NoRoots(es: seq<Export>, roots: set<seq<byte>>): set<nat> {
    set i: nat | i < |es| && es[i].name !in roots
  }

  /** Stripping keeps the roots, and drops as many exports as are none. */
  lemma {:induction false} RootsKept(es: seq<Export>, roots: set<seq<byte>>)
    ensures KeepsRoots(es, KeptExports(es, roots), roots)
    ensures |es| - |KeptExports(es, roots)| == |NoRoots(es, roots)|
  {
    hide KeptAt, NoRoots;
    if es == [] {
      NothingKept(roots);
    } else {
      var n := |es| - 1;
      RootsKept(es[..n], roots);
      var at: seq<nat> :| KeptAt(es[..n], KeptExports(es[..n], roots), roots, at);
      OneMore(es, KeptExports(es[..n], roots), roots, at);
      var at' := if es[n].name in roots then at + [n] else at;
      assert KeptExports(es[..n], roots) + [] == KeptExports(es[..n], roots);
      assert KeptAt(es, KeptExports(es, roots), roots, at');
    }
  }

  lemma NothingKept(roots: set<seq<byte>>)
    ensures KeptAt([], [], roots, []) && NoRoots([], roots) == {}
  {
  }

  lemma OneMore(es: seq<Export>, kept: seq<Export>, roots: set<seq<byte>>, at: seq<nat>)
    requires es != [] && KeptAt(es[..|es| - 1], kept, roots, at)
    ensures var n := |es| - 1;
            && |NoRoots(es, roots)| == |NoRoots(es[..n], roots)| + (if es[n].name in roots then 0 else 1)
            && if es[n].name in roots then KeptAt(es, kept + [es[n]], roots, at + [n]) else KeptAt(es, kept, roots, at)
  {
    var n := |es| - 1;
    assert forall i | 0 <= i < n :: es[..n][i] == es[i];
    if es[n].name in roots {
      assert NoRoots(es, roots) == NoRoots(es[..n], roots);
    } else {
      assert NoRoots(es, roots) == NoRoots(es[..n], roots) + {n};
    }
  }

  // ---- Prelink ----

  const STACK_POINTER: seq<byte> :=
    [0x5f, 0x5f, 0x73, 0x74, 0x61, 0x63, 0x6b, 0x5f, 0x70, 0x6f, 0x69, 0x6e, 0x74, 0x65, 0x72]

  /** An import that becomes a definition: memory, table, or a base global. */
  predicate Internalized(i: Import, base: map<seq<byte>, int>) {
    i.desc.MemImport? || i.desc.TableImport? || (i.desc.GlobalImport? && i.name in base)
  }

  function KeptImports(is_: seq<Import>, base: map<seq<byte>, int>): seq<Import> {
    if is_ == [] then []
    else
      var init, i := is_[..|is_| - 1], is_[|is_| - 1];
      KeptImports(init, base) + if Internalized(i, base) then [] else [i]
  }

  /** Exactly the memories, the tables and the globals with a base value leave the imports; the others
      stay as they are, in order. */
  lemma {:induction false} ImportsPicked(is_: seq<Import>, base: map<seq<byte>, int>)
    ensures Picked(is_, KeptImports(is_, base), (i: Import) =>
              !i.desc.MemImport? && !i.desc.TableImport? && (i.desc.GlobalImport? ==> i.name !in base))
  {
    hide KeptImports, Picked;
    var keep := (i: Import) =>
      !i.desc.MemImport? && !i.desc.TableImport? && (i.desc.GlobalImport? ==> i.name !in base);
    if is_ == [] {
      NothingImported(base);
      PickedNone(keep);
    } else {
      var init, i := is_[..|is_| - 1], is_[|is_| - 1];
      assert is_ == init + [i];
      ImportsPicked(init, base);
      LastImport(init, i, base);
      PickedSnoc(init, KeptImports(init, base), keep, i);
    }
  }

  lemma NothingImported(base: map<seq<byte>, int>)
    ensures KeptImports([], base) == []
  {
  }

  lemma LastImport(init: seq<Import>, i: Import, base: map<seq<byte>, int>)
    ensures KeptImports(init + [i], base) ==
            if Internalized(i, base) then KeptImports(init, base) else KeptImports(init, base) + [i]
  {
    assert (init + [i])[..|init|] == init;
  }

  /** The definition that replaces a base global. */
  function GlobalEntry(i: Import, v: int): seq<byte>
    requires i.desc.GlobalImport?
  {
    [i.desc.gtype, if i.desc.mutable then 1 else 0, 0x41] + PutS(v) + [O.END]
  }

  function NewGlobals(is_: seq<Import>, base: map<seq<byte>, int>): (seq<byte>, nat) {
    if is_ == [] then ([], 0)
    else
      var init, i := is_[..|is_| - 1], is_[|is_| - 1];
      var (b, n) := NewGlobals(init, base);
      if i.desc.GlobalImport? && i.name in base then (b + GlobalEntry(i, base[i.name]), n + 1) else (b, n)
  }

  /** The last memory import as a memory section; the old section without one. */
  function NewMems(is_: seq<Import>, old_: seq<byte>): seq<byte> {
    if is_ == [] then old_
    else
      var i := is_[|is_| - 1];
      if i.desc.MemImport? then PutU(1) + PutLimits(i.desc.limits) else NewMems(is_[..|is_| - 1], old_)
  }

  function NewTables(is_: seq<Import>, old_: seq<byte>): seq<byte> {
    if is_ == [] then old_
    else
      var i := is_[|is_| - 1];
      if i.desc.TableImport? then PutU(1) + [i.desc.elem] + PutLimits(i.desc.limits.(shared := false))
      else NewTables(is_[..|is_| - 1], old_)
  }

  /** `global.get` offsets become 0; others pass through. */
  function FoldOffset(e: seq<byte>): seq<byte> {
    if e != [] && e[0] == 0x23 then [0x41, 0, O.END] else e
  }

  function FoldElems(es: seq<ElemSeg>): (r: seq<ElemSeg>)
    ensures |r| == |es|
  {
    seq(|es|, i requires 0 <= i < |es| => es[i].(offset := FoldOffset(es[i].offset)))
  }

  function FoldDatas(ds: seq<DataSeg>): (r: seq<DataSeg>)
    ensures |r| == |ds|
  {
    seq(|ds|, i requires 0 <= i < |ds| => ds[i].(offset := FoldOffset(ds[i].offset)))
  }

  function Prelinked(m: Mod, base: map<seq<byte>, int>): Mod {
    var (entries, n) := NewGlobals(m.imports, base);
    m.(imports := KeptImports(m.imports, base), globals := entries + m.globals, globalN := (m.globalN + n) % TWO_32,
       newMems := NewMems(m.imports, m.newMems), newTables := NewTables(m.imports, m.newTables),
       elems := FoldElems(m.elems), datas := FoldDatas(m.datas))
  }

  /** The index of the first global import so named; -1 without one. */
  function GlobalIndex(is_: seq<Import>, name: seq<byte>): int {
    if is_ == [] then -1
    else if is_[0].desc.GlobalImport? && is_[0].name == name then 0
    else
      var k := GlobalIndex(is_[1..], name);
      if k < 0 then -1 else k + if is_[0].desc.GlobalImport? then 1 else 0
  }

  predicate NoneNamed(gs: seq<Import>, k: int, name: seq<byte>) {
    forall j | 0 <= j < |gs| && (k < 0 || j < k) :: gs[j].name != name
  }

  /** It names that import in the index space of global imports, and none in front of it. */
  lemma {:induction false} GlobalIndexNames(is_: seq<Import>, name: seq<byte>)
    ensures var k, gs := GlobalIndex(is_, name), GlobalImports(is_);
            (k >= 0 ==> k < |gs| && gs[k].name == name) && NoneNamed(gs, k, name)
  {
    if is_ != [] {
      GlobalIndexNames(is_[1..], name);
      var k, gs := GlobalIndex(is_, name), GlobalImports(is_);
      var r, rest := GlobalIndex(is_[1..], name), GlobalImports(is_[1..]);
      if is_[0].desc.GlobalImport? {
        assert gs == [is_[0]] + rest;
        if is_[0].name != name {
          assert k == if r < 0 then -1 else r + 1;
          forall j | 0 <= j < |gs| && (k < 0 || j < k)
            ensures gs[j].name != name
          {
            if j > 0 {
              assert gs[j] == rest[j - 1] && (r < 0 || j - 1 < r);
            } else {
              assert gs[0] == is_[0];
            }
          }
        }
      } else {
        assert gs == [] + rest == rest;
        assert forall j | 0 <= j < |gs| :: gs[j] == rest[j];
        assert k == if r < 0 then -1 else r;
      }
    }
  }

  // ---- Instrument ----

  function Bodies(codes: seq<Code>): (r: seq<seq<byte>>)
    ensures |r| == |codes| && forall i | 0 <= i < |codes| :: r[i] == codes[i].body
  {
    seq(|codes|, i requires 0 <= i < |codes| => codes[i].body)
  }

  function GraphFor(m: Mod, cfg: Config): Option<CallGraph.Graph> {
    CallGraph.GraphOf(m.imports, Bodies(m.codes), cfg.seedImport)
  }

  /** The guarded call targets: the may-longjmp functions and the throw itself. */
  ghost function MarksOf(g: CallGraph.Graph): set<nat> {
    CallGraph.MayLongjmp(g) + {g.seed}
  }

  predicate Paired(c: Code) { |c.localCounts| == |c.localTypes| }

  /** What the pass knows of function i. */
  function SiteOf(m: Mod, threw: int, marks: set<nat>, sp: nat, i: nat): Site
    requires i < |m.funcs| && m.funcs[i] < |m.types|
  {
    var ft := m.types[m.funcs[i]];
    Site(threw, marks, sp, |ft.params|, ft.results)
  }

  /** Function i can be rewritten: its type exists, its body can be walked, and if it has a site
      its results have zeros. */
  predicate CanRewrite(m: Mod, marks: set<nat>, i: nat) {
    && i < |m.codes| && i < |m.funcs| && m.funcs[i] < |m.types|
    && Tokens(m.codes[i].body).Some?
    && (Sites(m.codes[i].body, marks) != [] ==> Zeroable(m.types[m.funcs[i]].results))
  }

  /** The number of guards in a list of functions. */
  function SiteCount(codes: seq<Code>, marks: set<nat>): nat {
    if codes == [] then 0
    else SiteCount(codes[..|codes| - 1], marks) + |Sites(codes[|codes| - 1].body, marks)|
  }

  /** cs are the first functions of m, rewritten. */
  ghost predicate RewrittenTo(m: Mod, cs: seq<Code>, threw: int, marks: set<nat>, sp: nat) {
    |cs| <= |m.codes| &&
    forall i | 0 <= i < |cs| ::
      && CanRewrite(m, marks, i) && Paired(m.codes[i])
      && cs[i] == InstrumentedCode(m.codes[i], SiteOf(m, threw, marks, sp, i))
  }

  /** m' is m with every function rewritten. */
  ghost predicate Rewritten(m: Mod, m': Mod, threw: int, marks: set<nat>, sp: nat) {
    m' == m.(codes := m'.codes) && |m'.codes| == |m.codes| && RewrittenTo(m, m'.codes, threw, marks, sp)
  }

  // ---- The object ----

  class Module {
    /** The fields the source keeps side by side, as one record. */
    var m: Mod
    var spGlobal: int
    var spGlobalSet: bool

    constructor ()
      ensures m == EMPTY && !spGlobalSet
    {
      m, spGlobal, spGlobalSet := EMPTY, 0, false;
    }

    // ---- Decode ----

    method ParseTypes(p: seq<byte>) returns (ok: bool)
      modifies this`m
      ensures ok <==> AddTypes(old(m), p).Some?
      ensures ok ==> m == AddTypes(old(m), p).value
    {
      hide ReadVec, FuncTypeAt;
      var c := new Cur(p, 0);
      assert c.Rest() == p;
      var xs := ReadTypes(c);
      if xs.None? {
        return false;
      }
      m := m.(rawTypes := p, types := m.types + xs.value);
      ok := true;
    }

    method ParseImports(p: seq<byte>) returns (ok: bool)
      modifies this`m
      ensures ok <==> AddImports(old(m), p).Some?
      ensures ok ==> m == AddImports(old(m), p).value
    {
      hide ReadVec, ImportAt;
      var c := new Cur(p, 0);
      assert c.Rest() == p;
      var xs := ReadImports(c);
      if xs.None? {
        return false;
      }
      m := m.(imports := m.imports + xs.value);
      ok := true;
    }

    method ParseFuncs(p: seq<byte>) returns (ok: bool)
      modifies this`m
      ensures ok <==> AddFuncs(old(m), p).Some?
      ensures ok ==> m == AddFuncs(old(m), p).value
    {
      hide ReadVec, O.U32At;
      var c := new Cur(p, 0);
      assert c.Rest() == p;
      var xs := ReadNumbers(c);
      if xs.None? {
        return false;
      }
      m := m.(rawFunc := p, funcs := m.funcs + xs.value);
      ok := true;
    }

    method ParseExports(p: seq<byte>) returns (ok: bool)
      modifies this`m
      ensures ok <==> AddExports(old(m), p).Some?
      ensures ok ==> m == AddExports(old(m), p).value
    {
      hide ReadVec, ExportAt;
      var c := new Cur(p, 0);
      assert c.Rest() == p;
      var xs := ReadExports(c);
      if xs.None? {
        return false;
      }
      m := m.(exports := m.exports + xs.value);
      ok := true;
    }

    method ParseElems(p: seq<byte>) returns (ok: bool)
      modifies this`m
      ensures ok <==> AddElems(old(m), p).Some?
      ensures ok ==> m == AddElems(old(m), p).value
    {
      hide ReadVec, ElemAt;
      var c := new Cur(p, 0);
      assert c.Rest() == p;
      var xs := ReadElems(c);
      if xs.None? {
        return false;
      }
      m := m.(elems := m.elems + xs.value);
      ok := true;
    }

    method ParseCode(p: seq<byte>) returns (ok: bool)
      modifies this`m
      ensures ok <==> AddCodes(old(m), p).Some?
      ensures ok ==> m == AddCodes(old(m), p).value
    {
      hide ReadVec, CodeAt;
      var c := new Cur(p, 0);
      assert c.Rest() == p;
      var xs := ReadCodes(c);
      if xs.None? {
        return false;
      }
      m := m.(codes := m.codes + xs.value);
      ok := true;
    }

    method ParseData(p: seq<byte>) returns (ok: bool)
      modifies this`m
      ensures ok <==> AddDatas(old(m), p).Some?
      ensures ok ==> m == AddDatas(old(m), p).value
    {
      hide ReadVec, DataAt;
      var c := new Cur(p, 0);
      assert c.Rest() == p;
      var xs := ReadDatas(c);
      if xs.None? {
        return false;
      }
      m := m.(datas := m.datas + xs.value);
      ok := true;
    }

    method ParseGlobals(p: seq<byte>) returns (ok: bool)
      modifies this`m
      ensures ok <==> AddGlobals(old(m), p).Some?
      ensures ok ==> m == AddGlobals(old(m), p).value
    {
      hide ReadU;
      var c := new Cur(p, 0);
      assert c.Rest() == p;
      var n := c.U32();
      if n.None? {
        return false;
      }
      assert O.U32At(p) == Some((n.value, c.p));
      hide O.U32At, From;
      m := m.(globalN := n.value, globals := p[c.p..]);
      ok := true;
    }

    /** The effect of one section. */
    method ParseSection(id: byte, payload: seq<byte>) returns (ok: bool)
      modifies this`m
      ensures ok <==> Apply(old(m), id, payload).Some?
      ensures ok ==> m == Apply(old(m), id, payload).value
    {
      hide AddTypes, AddImports, AddFuncs, AddGlobals, AddExports, AddElems, AddCodes, AddDatas;
      ok := true;
      if id == 0 {
      } else if id == 1 {
        ok := ParseTypes(payload);
      } else if id == 2 {
        ok := ParseImports(payload);
      } else if id == 3 {
        ok := ParseFuncs(payload);
      } else if id == 4 {
        m := m.(newTables := payload);
      } else if id == 5 {
        m := m.(newMems := payload);
      } else if id == 6 {
        ok := ParseGlobals(payload);
      } else if id == 7 {
        ok := ParseExports(payload);
      } else if id == 8 {
        m := m.(rawStart := payload, hasStart := true);
      } else if id == 9 {
        ok := ParseElems(payload);
      } else if id == 10 {
        ok := ParseCode(payload);
      } else if id == 11 {
        ok := ParseData(payload);
      } else if id == 12 {
        m := m.(rawDataCnt := payload, hasDataCnt := true);
      } else {
        ok := false;
      }
    }

    /** `Decode`, into a fresh module. False where the source returns an error or panics. */
    method DecodeInto(b: seq<byte>) returns (ok: bool)
      requires m == EMPTY
      modifies this`m
      ensures ok <==> Decode(b).Some?
      ensures ok ==> m == Decode(b).value
    {
      hide Apply, BytesAt;
      if |b| < 8 || b[..4] != MAGIC {
        return false;
      }
      var c := new Cur(b, 8);
      assert c.Rest() == b[8..];
      while c.p < |b|
        invariant 8 <= c.p <= |b| && c.b == b
        invariant Decode(b) == Resume(m, Sections(c.Rest()))
        decreases |b| - c.p
      {
        ghost var s, at := c.Rest(), c.p;
        ResumeStep(m, s);
        var id := c.Byte1();
        assert c.Rest() == s[1..];
        var payload := ReadName(c);
        if payload.None? {
          return false;
        }
        assert c.Rest() == s[SectionAt(s).value.1..];
        ok := ParseSection(id.value, payload.value);
        if !ok {
          return false;
        }
      }
      ok := true;
    }

    // ---- Encode ----

    method EncodeImports() returns (e: seq<byte>)
      ensures e == WriteVec(m.imports, PutImport)
    {
      hide PutU, WriteMany, PutImport;
      e := PutU32([], |m.imports|);
      assert [] + PutU(|m.imports|) == PutU(|m.imports|);
      ghost var head := e;
      assert WriteMany(m.imports[..0], PutImport) == [] by { NothingWritten(m.imports[..0], PutImport); }
      for i := 0 to |m.imports|
        invariant e == head + WriteMany(m.imports[..i], PutImport)
      {
        var x := m.imports[i];
        assert m.imports[..i + 1] == m.imports[..i] + [x];
        WriteManySnoc(m.imports[..i], x, PutImport);
        e := AppendImport(e, x);
      }
      assert m.imports[..|m.imports|] == m.imports;
    }

    method EncodeExports() returns (e: seq<byte>)
      ensures e == WriteVec(m.exports, PutExport)
    {
      hide PutU, WriteMany, PutExport;
      e := PutU32([], |m.exports|);
      assert [] + PutU(|m.exports|) == PutU(|m.exports|);
      ghost var head := e;
      assert WriteMany(m.exports[..0], PutExport) == [] by { NothingWritten(m.exports[..0], PutExport); }
      for i := 0 to |m.exports|
        invariant e == head + WriteMany(m.exports[..i], PutExport)
      {
        var x := m.exports[i];
        assert m.exports[..i + 1] == m.exports[..i] + [x];
        WriteManySnoc(m.exports[..i], x, PutExport);
        e := AppendExport(e, x);
      }
      assert m.exports[..|m.exports|] == m.exports;
    }

    method EncodeElems() returns (e: seq<byte>)
      ensures e == WriteVec(m.elems, PutElem)
    {
      hide PutU, WriteMany, PutElem;
      e := PutU32([], |m.elems|);
      assert [] + PutU(|m.elems|) == PutU(|m.elems|);
      ghost var head := e;
      assert WriteMany(m.elems[..0], PutElem) == [] by { NothingWritten(m.elems[..0], PutElem); }
      for i := 0 to |m.elems|
        invariant e == head + WriteMany(m.elems[..i], PutElem)
      {
        var x := m.elems[i];
        assert m.elems[..i + 1] == m.elems[..i] + [x];
        WriteManySnoc(m.elems[..i], x, PutElem);
        e := AppendElem(e, x);
      }
      assert m.elems[..|m.elems|] == m.elems;
    }

    method EncodeCode() returns (e: seq<byte>)
      requires forall i | 0 <= i < |m.codes| :: Paired(m.codes[i])
      ensures e == WriteVec(m.codes, PutCode)
    {
      hide PutU, WriteMany, PutCode;
      e := PutU32([], |m.codes|);
      assert [] + PutU(|m.codes|) == PutU(|m.codes|);
      ghost var head := e;
      assert WriteMany(m.codes[..0], PutCode) == [] by { NothingWritten(m.codes[..0], PutCode); }
      for i := 0 to |m.codes|
        invariant e == head + WriteMany(m.codes[..i], PutCode)
      {
        var x := m.codes[i];
        assert m.codes[..i + 1] == m.codes[..i] + [x];
        WriteManySnoc(m.codes[..i], x, PutCode);
        e := AppendCode(e, x);
      }
      assert m.codes[..|m.codes|] == m.codes;
    }

    method EncodeData() returns (e: seq<byte>)
      ensures e == WriteVec(m.datas, PutData)
    {
      hide PutU, WriteMany, PutData;
      e := PutU32([], |m.datas|);
      assert [] + PutU(|m.datas|) == PutU(|m.datas|);
      ghost var head := e;
      assert WriteMany(m.datas[..0], PutData) == [] by { NothingWritten(m.datas[..0], PutData); }
      for i := 0 to |m.datas|
        invariant e == head + WriteMany(m.datas[..i], PutData)
      {
        var x := m.datas[i];
        assert m.datas[..i + 1] == m.datas[..i] + [x];
        WriteManySnoc(m.datas[..i], x, PutData);
        e := AppendData(e, x);
      }
      assert m.datas[..|m.datas|] == m.datas;
    }

    /** `Encode`. */
    method Encode() returns (out: seq<byte>)
      requires forall i | 0 <= i < |m.codes| :: Paired(m.codes[i])
      ensures out == ModuleCodec.Encode(m)
    {
      hide WriteVec, PutU, PutSection, PutSections, LateSections, SectionsOf;
      ghost var xs: seq<Section> := [];
      EmptySections();
      out := HEADER;
      out := AppendSection(out, 1, m.rawTypes, xs);
      xs := xs + [Section(1, m.rawTypes)];
      var p := EncodeImports();
      out := AppendSection(out, 2, p, xs);
      xs := xs + [Section(2, p)];
      out := AppendSection(out, 3, m.rawFunc, xs);
      xs := xs + [Section(3, m.rawFunc)];
      if |m.newTables| > 0 {
        out := AppendSection(out, 4, m.newTables, xs);
        xs := xs + [Section(4, m.newTables)];
      }
      if |m.newMems| > 0 {
        out := AppendSection(out, 5, m.newMems, xs);
        xs := xs + [Section(5, m.newMems)];
      }
      assert xs == EarlySections(m);
      EarlyLate(m);
      out := EncodeRest(out, xs);
    }

    /** The sections from the globals on. */
    method EncodeRest(dst: seq<byte>, ghost xs0: seq<Section>) returns (out: seq<byte>)
      requires forall i | 0 <= i < |m.codes| :: Paired(m.codes[i])
      requires dst == HEADER + PutSections(xs0)
      ensures out == HEADER + PutSections(xs0 + LateSections(m))
    {
      hide WriteVec, PutU, PutSection, PutSections, LateSections;
      ghost var xs := xs0;
      var p := PutU32([], m.globalN);
      assert [] + PutU(m.globalN) == PutU(m.globalN);
      p := p + m.globals;
      out := AppendSection(dst, 6, p, xs);
      xs := xs + [Section(6, p)];
      p := EncodeExports();
      out := AppendSection(out, 7, p, xs);
      xs := xs + [Section(7, p)];
      if m.hasStart {
        out := AppendSection(out, 8, m.rawStart, xs);
        xs := xs + [Section(8, m.rawStart)];
      }
      p := EncodeElems();
      out := AppendSection(out, 9, p, xs);
      xs := xs + [Section(9, p)];
      if m.hasDataCnt {
        out := AppendSection(out, 12, m.rawDataCnt, xs);
        xs := xs + [Section(12, m.rawDataCnt)];
      }
      p := EncodeCode();
      out := AppendSection(out, 10, p, xs);
      xs := xs + [Section(10, p)];
      p := EncodeData();
      out := AppendSection(out, 11, p, xs);
      xs := xs + [Section(11, p)];
      LateSectionsAre(m, xs0);
    }

    // ---- Strip ----

    /** `StripExports`: keeps the roots, in order, and counts the rest. */
    method StripExports(cfg: Config) returns (n: nat)
      modifies this`m
      ensures m == old(m).(exports := KeptExports(old(m.exports), cfg.roots))
      ensures KeepsRoots(old(m.exports), m.exports, cfg.roots)
      ensures n == |NoRoots(old(m.exports), cfg.roots)|
    {
      RootsKept(m.exports, cfg.roots);
      var kept, all := [], m.exports;
      n := 0;
      for i := 0 to |all|
        invariant kept == KeptExports(all[..i], cfg.roots) && n == i - |kept|
      {
        assert all[..i + 1][..i] == all[..i];
        if all[i].name in cfg.roots {
          kept := kept + [all[i]];
        } else {
          n := n + 1;
        }
      }
      assert all[..|all|] == all;
      m := m.(exports := kept);
    }

    // ---- Prelink ----

    method Prelink(cfg: Config)
      modifies this
      ensures m == Prelinked(old(m), cfg.baseGlobals)
      ensures spGlobalSet && spGlobal == GlobalIndex(old(m.imports), STACK_POINTER)
    {
      hide KeptImports, NewGlobals, NewMems, NewTables, FoldElems, FoldDatas, GlobalIndex;
      spGlobal := GlobalIndexOfImport(STACK_POINTER);
      spGlobalSet := true;
      PrelinkImports(cfg.baseGlobals);
      FoldSegments();
    }

    /** The loop over the imports. */
    method PrelinkImports(base: map<seq<byte>, int>)
      modifies this`m
      ensures m == old(m).(
                imports := KeptImports(old(m.imports), base),
                newMems := NewMems(old(m.imports), old(m.newMems)),
                newTables := NewTables(old(m.imports), old(m.newTables)),
                globals := NewGlobals(old(m.imports), base).0 + old(m.globals),
                globalN := (old(m.globalN) + NewGlobals(old(m.imports), base).1) % TWO_32)
    {
      hide PutLimits, PutU, GlobalEntry, KeptImports, NewGlobals, NewMems, NewTables;
      var all := m.imports;
      var keep, entries, n := [], [], 0;
      NothingPrelinked(base, m.newMems, m.newTables);
      assert all[..0] == [];
      for i := 0 to |all|
        invariant keep == KeptImports(all[..i], base) && (entries, n) == NewGlobals(all[..i], base)
        invariant m == old(m).(newMems := NewMems(all[..i], old(m.newMems)),
                               newTables := NewTables(all[..i], old(m.newTables)))
      {
        var imp := all[i];
        assert all[..i + 1] == all[..i] + [imp];
        PrelinkOne(all[..i], imp, base, old(m.newMems), old(m.newTables));
        match imp.desc
        case MemImport(l) =>
          var s := EncodeLimitsSection([], l);
          m := m.(newMems := s);
        case TableImport(e, l) =>
          var s := EncodeLimitsSection([e], l.(shared := false));
          m := m.(newTables := s);
        case GlobalImport(t, mut) =>
          if imp.name in base {
            entries := AppendGlobalEntry(entries, imp, base[imp.name]);
            n := n + 1;
          } else {
            keep := keep + [imp];
          }
        case _ => keep := keep + [imp];
      }
      assert all[..|all|] == all;
      m := m.(imports := keep, globals := entries + m.globals, globalN := (m.globalN + n) % TWO_32);
    }

    /** The two loops over the segments. */
    method FoldSegments()
      modifies this`m
      ensures m == old(m).(elems := FoldElems(old(m.elems)), datas := FoldDatas(old(m.datas)))
    {
      var es, ds := m.elems, m.datas;
      for i := 0 to |es|
        invariant m == old(m) && |es| == |m.elems|
        invariant forall j | 0 <= j < |es| :: es[j] == if j < i then FoldElems(m.elems)[j] else m.elems[j]
      {
        var e := FoldedOffset(es[i].offset);
        es := es[i := es[i].(offset := e)];
      }
      for i := 0 to |ds|
        invariant m == old(m) && |ds| == |m.datas|
        invariant forall j | 0 <= j < |ds| :: ds[j] == if j < i then FoldDatas(m.datas)[j] else m.datas[j]
      {
        var e := FoldedOffset(ds[i].offset);
        ds := ds[i := ds[i].(offset := e)];
      }
      assert es == FoldElems(m.elems) && ds == FoldDatas(m.datas);
      m := m.(elems := es, datas := ds);
    }

    method GlobalIndexOfImport(name: seq<byte>) returns (k: int)
      ensures k == GlobalIndex(m.imports, name)
      ensures k >= 0 ==> k < |GlobalImports(m.imports)| && GlobalImports(m.imports)[k].name == name
      ensures NoneNamed(GlobalImports(m.imports), k, name)
    {
      GlobalIndexNames(m.imports, name);
      var gi, all := 0, m.imports;
      assert all[0..] == all;
      for i := 0 to |all|
        invariant gi >= 0
        invariant GlobalIndex(all, name) ==
                  var rest := GlobalIndex(all[i..], name); if rest < 0 then -1 else gi + rest
      {
        assert all[i..][1..] == all[i + 1..];
        if all[i].desc.GlobalImport? {
          if all[i].name == name {
            return gi;
          }
          gi := gi + 1;
        }
      }
      k := -1;
    }

    // ---- Instrument ----

    /** The stack-pointer index in force. */
    function SpIndex(cfg: Config): int
      reads this
    {
      if cfg.spGlobalOverride >= 0 then cfg.spGlobalOverride
      else if spGlobalSet then spGlobal
      else GlobalIndex(m.imports, STACK_POINTER)
    }

    /** `Instrument`. False where the source panics, which leaves the module partly rewritten. */
    method Instrument(cfg: Config) returns (ok: bool, mayLongjmp: nat, sites: nat)
      requires forall i | 0 <= i < |m.codes| :: Paired(m.codes[i])
      modifies this`m
      ensures ok <==>
                && old(SpIndex(cfg)) >= 0 && GraphFor(old(m), cfg).Some?
                && forall i | 0 <= i < |old(m.codes)| :: CanRewrite(old(m), MarksOf(GraphFor(old(m), cfg).value), i)
      ensures ok ==>
                var g := GraphFor(old(m), cfg).value;
                && Rewritten(old(m), m, cfg.threwAddr, MarksOf(g), old(SpIndex(cfg)) % TWO_32)
                && mayLongjmp == |CallGraph.MayLongjmp(g)|
                && sites == SiteCount(old(m.codes), MarksOf(g))
    {
      hide CanRewrite, RewrittenTo, CallGraph.MayLongjmp, CallGraph.GraphOf;
      sites := 0;
      var marks, seed := CallGraph.MayLongjmpSet(m.imports, Bodies(m.codes), cfg.seedImport);
      if marks.None? {
        return false, 0, 0;
      }
      mayLongjmp := |marks.value|;
      var spIdx := spGlobal;
      if !spGlobalSet {
        spIdx := GlobalIndexOfImport(STACK_POINTER);
      }
      if cfg.spGlobalOverride >= 0 {
        spIdx := cfg.spGlobalOverride;
      }
      if spIdx < 0 {
        return false, 0, 0;
      }
      assert marks.value + {seed} == MarksOf(GraphFor(m, cfg).value);
      ok, sites := InstrumentCodes(cfg.threwAddr, marks.value + {seed}, spIdx % TWO_32);
      assert ok <==> forall i | 0 <= i < |old(m.codes)| :: CanRewrite(old(m), MarksOf(GraphFor(old(m), cfg).value), i);
    }

    /** The loop over the functions. */
    method InstrumentCodes(threw: int, marks: set<nat>, sp: nat) returns (ok: bool, sites: nat)
      requires forall i | 0 <= i < |m.codes| :: Paired(m.codes[i])
      modifies this`m
      ensures ok <==> forall i | 0 <= i < |old(m.codes)| :: CanRewrite(old(m), marks, i)
      ensures ok ==> Rewritten(old(m), m, threw, marks, sp)
      ensures ok ==> sites == SiteCount(old(m.codes), marks)
      ensures m.imports == old(m.imports)
    {
      hide InstrumentedCode, CanRewrite, Sites, RewrittenTo, SiteCount, Paired;
      var was, done := m, [];
      NothingRewritten(was, threw, marks, sp);
      NoSites(was.codes, marks);
      sites := 0;
      for i := 0 to |was.codes|
        invariant |done| == i && sites == SiteCount(was.codes[..i], marks)
        invariant m == was.(codes := done + was.codes[i..])
        invariant RewrittenTo(was, done, threw, marks, sp)
      {
        var c, n := RewriteOne(was, i, threw, marks, sp);
        if c.None? {
          return false, 0;
        }
        OneMoreCounted(was.codes, marks, i);
        RewrittenSnoc(was, done, c.value, threw, marks, sp);
        done, sites := done + [c.value], sites + n;
        m := was.(codes := done + was.codes[i + 1..]);
      }
      assert was.codes[..|was.codes|] == was.codes;
      assert m.codes == done;
      AllRewritten(was, done, threw, marks, sp);
      ok := true;
    }
  }

  // ---- Helpers of the loops ----

  /** The body of the loop over the functions. */
  method RewriteOne(m: Mod, i: nat, threw: int, marks: set<nat>, sp: nat) returns (c: Option<Code>, n: nat)
    requires i < |m.codes| && Paired(m.codes[i])
    ensures c.Some? <==> CanRewrite(m, marks, i)
    ensures c.Some? ==>
              c.value == InstrumentedCode(m.codes[i], SiteOf(m, threw, marks, sp, i))
              && n == |Sites(m.codes[i].body, marks)|
  {
    hide InstrumentedCode, Zeroable, Tokens, Sites;
    if i >= |m.funcs| || m.funcs[i] >= |m.types| {
      return None, 0;
    }
    var ft := m.types[m.funcs[i]];
    c, n := InstrumentCode(m.codes[i], Site(threw, marks, sp, |ft.params|, ft.results));
  }

  lemma NothingRewritten(m: Mod, threw: int, marks: set<nat>, sp: nat)
    ensures RewrittenTo(m, [], threw, marks, sp)
  {
  }

  lemma RewrittenSnoc(m: Mod, cs: seq<Code>, c: Code, threw: int, marks: set<nat>, sp: nat)
    requires RewrittenTo(m, cs, threw, marks, sp) && |cs| < |m.codes|
    requires CanRewrite(m, marks, |cs|) && Paired(m.codes[|cs|])
    requires c == InstrumentedCode(m.codes[|cs|], SiteOf(m, threw, marks, sp, |cs|))
    ensures RewrittenTo(m, cs + [c], threw, marks, sp)
  {
    hide InstrumentedCode, Zeroable, Tokens, Sites;
  }

  lemma NoSites(codes: seq<Code>, marks: set<nat>)
    ensures SiteCount(codes[..0], marks) == 0
  {
  }

  lemma OneMoreCounted(codes: seq<Code>, marks: set<nat>, i: nat)
    requires i < |codes|
    ensures SiteCount(codes[..i + 1], marks) == SiteCount(codes[..i], marks) + |Sites(codes[i].body, marks)|
  {
    hide Sites;
    assert codes[..i + 1][..i] == codes[..i];
  }

  lemma AllRewritten(m: Mod, cs: seq<Code>, threw: int, marks: set<nat>, sp: nat)
    requires RewrittenTo(m, cs, threw, marks, sp) && |cs| == |m.codes|
    ensures forall i | 0 <= i < |m.codes| :: CanRewrite(m, marks, i)
  {
    hide InstrumentedCode, CanRewrite;
  }

  lemma NothingPrelinked(base: map<seq<byte>, int>, mems: seq<byte>, tables: seq<byte>)
    ensures KeptImports([], base) == [] && NewGlobals([], base) == ([], 0)
    ensures NewMems([], mems) == mems && NewTables([], tables) == tables
  {
  }

  /** What one more import adds. */
  lemma PrelinkOne(xs: seq<Import>, i: Import, base: map<seq<byte>, int>, mems: seq<byte>, tables: seq<byte>)
    ensures KeptImports(xs + [i], base) ==
            if Internalized(i, base) then KeptImports(xs, base) else KeptImports(xs, base) + [i]
    ensures NewGlobals(xs + [i], base) ==
            var (b, n) := NewGlobals(xs, base);
            if i.desc.GlobalImport? && i.name in base then (b + GlobalEntry(i, base[i.name]), n + 1) else (b, n)
    ensures NewMems(xs + [i], mems) ==
            if i.desc.MemImport? then PutU(1) + [] + PutLimits(i.desc.limits) else NewMems(xs, mems)
    ensures NewTables(xs + [i], tables) ==
            if i.desc.TableImport? then PutU(1) + [i.desc.elem] + PutLimits(i.desc.limits.(shared := false))
            else NewTables(xs, tables)
  {
    hide PutLimits, PutU, GlobalEntry;
    assert (xs + [i])[..|xs|] == xs;
    assert PutU(1) + [] == PutU(1);
    assert KeptImports(xs, base) + [] == KeptImports(xs, base);
  }

  method AppendGlobalEntry(dst: seq<byte>, i: Import, v: int) returns (out: seq<byte>)
    requires i.desc.GlobalImport?
    ensures out == dst + GlobalEntry(i, v)
  {
    hide PutS;
    out := dst + [i.desc.gtype, if i.desc.mutable then 1 else 0];
    out := out + [0x41];
    out := PutS32(out, v);
    out := out + [O.END];
  }

  method EncodeLimitsSection(head: seq<byte>, l: Limits) returns (e: seq<byte>)
    ensures e == PutU(1) + head + PutLimits(l)
  {
    hide PutU;
    e := PutU32([], 1);
    assert [] + PutU(1) == PutU(1);
    e := e + head;
    e := EncodeLimits(e, l);
  }

  method EncodeLimits(dst: seq<byte>, l: Limits) returns (e: seq<byte>)
    ensures e == dst + PutLimits(l)
  {
    hide PutU;
    var flag: byte := if l.shared && l.hasMax then 3 else if l.shared then 2 else if l.hasMax then 1 else 0;
    e := dst + [flag];
    e := PutU32(e, l.min);
    if l.hasMax {
      e := PutU32(e, l.max);
      assert e == dst + ([flag] + PutU(l.min) + PutU(l.max));
    } else {
      assert e == dst + ([flag] + PutU(l.min) + []);
    }
  }

  /** `foldOffset`. An empty expression cannot come out of the decoder; it is left alone here. */
  method FoldedOffset(e: seq<byte>) returns (r: seq<byte>)
    ensures r == FoldOffset(e)
  {
    if |e| > 0 && e[0] == 0x23 {
      r := PutS32([0x41], 0);
      r := r + [O.END];
    } else {
      r := e;
    }
  }

  method AppendSection(dst: seq<byte>, id: byte, payload: seq<byte>, ghost xs: seq<Section>) returns (out: seq<byte>)
    requires dst == HEADER + PutSections(xs)
    ensures out == HEADER + PutSections(xs + [Section(id, payload)])
  {
    hide PutU, PutSections;
    var s := PutU32([id], |payload|);
    s := s + payload;
    assert s == PutSection(Section(id, payload));
    PutSectionsSnoc(xs, Section(id, payload));
    out := dst + s;
  }

  lemma EmptySections()
    ensures PutSections([]) == []
  {
  }

  lemma {:induction false} PutSectionsSnoc(xs: seq<Section>, x: Section)
    ensures PutSections(xs + [x]) == PutSections(xs) + PutSection(x)
  {
    hide PutSection;
    if xs == [] {
      assert xs + [x] == [x] && [x][1..] == [];
      assert PutSection(x) + [] == PutSection(x);
    } else {
      PutSectionsSnoc(xs[1..], x);
      assert (xs + [x])[1..] == xs[1..] + [x];
    }
  }

  function EarlySections(m: Mod): seq<Section> {
    [Section(1, m.rawTypes), Section(2, WriteVec(m.imports, PutImport)), Section(3, m.rawFunc)]
    + When(m.newTables != [], Section(4, m.newTables))
    + When(m.newMems != [], Section(5, m.newMems))
  }

  lemma EarlyLate(m: Mod)
    ensures EarlySections(m) + LateSections(m) == SectionsOf(m)
  {
    hide WriteVec, PutU, When;
  }

  lemma LateSectionsAre(m: Mod, xs: seq<Section>)
    ensures var a := xs + [Section(6, PutU(m.globalN) + m.globals)] + [Section(7, WriteVec(m.exports, PutExport))];
            var b := if m.hasStart then a + [Section(8, m.rawStart)] else a;
            var c := b + [Section(9, WriteVec(m.elems, PutElem))];
            var d := if m.hasDataCnt then c + [Section(12, m.rawDataCnt)] else c;
            d + [Section(10, WriteVec(m.codes, PutCode))] + [Section(11, WriteVec(m.datas, PutData))] ==
            xs + LateSections(m)
  {
    hide WriteVec, PutU;
  }

  function LateSections(m: Mod): seq<Section> {
    [Section(6, PutU(m.globalN) + m.globals), Section(7, WriteVec(m.exports, PutExport))]
    + When(m.hasStart, Section(8, m.rawStart))
    + [Section(9, WriteVec(m.elems, PutElem))]
    + When(m.hasDataCnt, Section(12, m.rawDataCnt))
    + [Section(10, WriteVec(m.codes, PutCode)), Section(11, WriteVec(m.datas, PutData))]
  }

  /** What decoding comes to when m has been built and these sections are left. */
  function Resume(m: Mod, xs: Option<seq<Section>>): Option<Mod> {
    match xs case None => None case Some(ys) => ApplyAll(m, ys)
  }

  lemma ResumeStep(m: Mod, s: seq<byte>)
    requires s != []
    ensures SectionAt(s).None? ==> Resume(m, Sections(s)).None?
    ensures SectionAt(s).Some? ==>
              var (x, n) := SectionAt(s).value;
              var r := Apply(m, x.id, x.payload);
              (r.None? ==> Resume(m, Sections(s)).None?) &&
              (r.Some? ==> Resume(m, Sections(s)) == Resume(r.value, Sections(s[n..])))
  {
    hide Apply, SectionAt;
    if SectionAt(s).Some? {
      var (x, n) := SectionAt(s).value;
      var rest := Sections(s[n..]);
      if rest.Some? {
        assert ([x] + rest.value)[1..] == rest.value;
      }
    }
  }

  lemma NothingWritten<T>(xs: seq<T>, put: T -> seq<byte>)
    requires xs == []
    ensures WriteMany(xs, put) == []
  {
  }

  method AppendName(dst: seq<byte>, x: seq<byte>) returns (out: seq<byte>)
    ensures out == dst + PutBytes(x)
  {
    hide PutU;
    out := PutU32(dst, |x|);
    out := out + x;
  }

  method AppendImport(dst: seq<byte>, x: Import) returns (out: seq<byte>)
    ensures out == dst + PutImport(x)
  {
    hide PutU, PutBytes, PutLimits;
    out := AppendName(dst, x.mod);
    out := AppendName(out, x.name);
    out := out + [KindByte(x.desc)];
    ghost var head := PutBytes(x.mod) + PutBytes(x.name) + [KindByte(x.desc)];
    assert out == dst + head;
    match x.desc
    case FuncImport(t) => out := PutU32(out, t);
    case TableImport(e, l) =>
      out := out + [e];
      out := EncodeLimits(out, l);
    case MemImport(l) => out := EncodeLimits(out, l);
    case GlobalImport(t, m) => out := out + [t, if m then 1 else 0];
    case OtherImport(_) =>
    assert out == dst + head + PutDesc(x.desc);
  }

  method AppendExport(dst: seq<byte>, x: Export) returns (out: seq<byte>)
    ensures out == dst + PutExport(x)
  {
    hide PutU, PutBytes;
    out := AppendName(dst, x.name);
    out := out + [x.kind];
    out := PutU32(out, x.index);
  }

  method AppendElem(dst: seq<byte>, x: ElemSeg) returns (out: seq<byte>)
    ensures out == dst + PutElem(x)
  {
    hide PutU, WriteMany;
    out := PutU32(dst, x.flag);
    out := out + x.offset;
    out := PutU32(out, |x.funcs|);
    ghost var head := out;
    NothingWritten(x.funcs[..0], PutU);
    for i := 0 to |x.funcs|
      invariant out == head + WriteMany(x.funcs[..i], PutU)
    {
      assert x.funcs[..i + 1] == x.funcs[..i] + [x.funcs[i]];
      WriteManySnoc(x.funcs[..i], x.funcs[i], PutU);
      out := PutU32(out, x.funcs[i]);
    }
    assert x.funcs[..|x.funcs|] == x.funcs;
  }

  method AppendData(dst: seq<byte>, x: DataSeg) returns (out: seq<byte>)
    ensures out == dst + PutData(x)
  {
    hide PutU;
    out := PutU32(dst, x.flag);
    out := out + x.offset;
    out := PutU32(out, |x.data|);
    out := out + x.data;
  }

  method AppendCode(dst: seq<byte>, x: Code) returns (out: seq<byte>)
    requires Paired(x)
    ensures out == dst + PutCode(x)
  {
    hide PutU, WriteMany;
    var body := PutU32([], |x.localCounts|);
    assert [] + PutU(|x.localCounts|) == PutU(|x.localCounts|);
    ghost var head, ls := body, Runs(x.localCounts, x.localTypes);
    NothingWritten(ls[..0], PutLocal);
    for i := 0 to |x.localCounts|
      invariant body == head + WriteMany(ls[..i], PutLocal)
    {
      assert ls[..i + 1] == ls[..i] + [ls[i]];
      WriteManySnoc(ls[..i], ls[i], PutLocal);
      body := PutU32(body, x.localCounts[i]);
      body := body + [x.localTypes[i]];
    }
    assert ls[..|ls|] == ls;
    body := body + x.body;
    assert body == CodeBytes(x);
    out := AppendName(dst, body);
  }

  lemma {:induction false} WriteManySnoc<T>(xs: seq<T>, x: T, put: T -> seq<byte>)
    ensures WriteMany(xs + [x], put) == WriteMany(xs, put) + put(x)
  {
    if xs == [] {
      assert xs + [x] == [x] && [x][1..] == [];
      assert put(x) + [] == put(x);
    } else {
      WriteManySnoc(xs[1..], x, put);
      assert (xs + [x])[1..] == xs[1..] + [x];
    }
  }
}

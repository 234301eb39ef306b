/** The parts of a WebAssembly module the pass looks into (section 5.5 of the WebAssembly Core
    Specification). Names are byte strings, value types are their one-byte codes. */
module ModuleTypes {
  import opened Bytes

  const I32: byte := 0x7f
  const I64: byte := 0x7e
  const F32: byte := 0x7d
  const F64: byte := 0x7c

  datatype Limits = Limits(min: nat, max: nat, hasMax: bool, shared: bool)

  datatype ImportDesc =
    | FuncImport(typeIdx: nat)
    | TableImport(elem: byte, limits: Limits)
    | MemImport(limits: Limits)
    | GlobalImport(gtype: byte, mutable: bool)
    | OtherImport(kind: byte)

  datatype Import = Import(mod: seq<byte>, name: seq<byte>, desc: ImportDesc)

  datatype Export = Export(name: seq<byte>, kind: byte, index: nat)

  datatype FuncType = FuncType(params: seq<byte>, results: seq<byte>)

  /** A function body: run-length locals and the instruction bytes with the final `end`. */
  datatype Code = Code(localCounts: seq<nat>, localTypes: seq<byte>, body: seq<byte>)

  /** An element segment: active, with a constant offset expression kept as raw bytes. */
  datatype ElemSeg = ElemSeg(flag: nat, offset: seq<byte>, funcs: seq<nat>)

  datatype DataSeg = DataSeg(flag: nat, offset: seq<byte>, data: seq<byte>)

  /** A module: parsed where the pass changes it, raw bytes elsewhere. */
  datatype Mod = Mod(
    rawTypes: seq<byte>, rawFunc: seq<byte>, rawStart: seq<byte>, rawDataCnt: seq<byte>,
    hasStart: bool, hasDataCnt: bool,
    types: seq<FuncType>, imports: seq<Import>, exports: seq<Export>, funcs: seq<nat>,
    globals: seq<byte>, globalN: nat, newTables: seq<byte>, newMems: seq<byte>,
    elems: seq<ElemSeg>, datas: seq<DataSeg>, codes: seq<Code>)

  const EMPTY: Mod := Mod([], [], [], [], false, false, [], [], [], [], [], 0, [], [], [], [], [])

  /** Where a rewritten frame keeps the stack pointer it was entered with, if it changes it. */
  datatype Save = NoSave | Saved(local: nat)

  datatype Config = Config(
    roots: set<seq<byte>>,
    baseGlobals: map<seq<byte>, int>,
    seedImport: seq<byte>,
    threwAddr: int,
    spGlobalOverride: int)

  function FuncImports(imports: seq<Import>): seq<Import> {
    if imports == [] then []
    else (if imports[0].desc.FuncImport? then [imports[0]] else []) + FuncImports(imports[1..])
  }

  function GlobalImports(imports: seq<Import>): seq<Import> {
    if imports == [] then []
    else (if imports[0].desc.GlobalImport? then [imports[0]] else []) + GlobalImports(imports[1..])
  }

  lemma {:induction false} FuncImportsSnoc(imports: seq<Import>, imp: Import)
    ensures FuncImports(imports + [imp]) ==
            FuncImports(imports) + if imp.desc.FuncImport? then [imp] else []
  {
    if imports != [] {
      FuncImportsSnoc(imports[1..], imp);
      assert (imports + [imp])[1..] == imports[1..] + [imp];
    }
  }

  lemma {:induction false} GlobalImportsSnoc(imports: seq<Import>, imp: Import)
    ensures GlobalImports(imports + [imp]) ==
            GlobalImports(imports) + if imp.desc.GlobalImport? then [imp] else []
  {
    if imports != [] {
      GlobalImportsSnoc(imports[1..], imp);
      assert (imports + [imp])[1..] == imports[1..] + [imp];
    }
  }

  // ---- Index spaces ----

  /** ys are the elements of xs at these positions: all that satisfy keep, in the order they are in. */
  predicate PickedAt<T(==)>(xs: seq<T>, ys: seq<T>, keep: T -> bool, at: seq<nat>) {
    && |at| == |ys|
    && (forall j, k | 0 <= j < k < |at| :: at[j] < at[k])
    && (forall k | 0 <= k < |at| :: at[k] < |xs| && ys[k] == xs[at[k]])
    && (forall i | 0 <= i < |xs| :: keep(xs[i]) <==> i in at)
  }

  ghost predicate Picked<T>(xs: seq<T>, ys: seq<T>, keep: T -> bool) {
    exists at: seq<nat> :: PickedAt(xs, ys, keep, at)
  }

  lemma PickedSnoc<T>(xs: seq<T>, ys: seq<T>, keep: T -> bool, x: T)
    requires Picked(xs, ys, keep)
    ensures Picked(xs + [x], if keep(x) then ys + [x] else ys, keep)
  {
    hide PickedAt;
    var at: seq<nat> :| PickedAt(xs, ys, keep, at);
    PickedAtSnoc(xs, ys, keep, x, at);
    assert PickedAt(xs + [x], if keep(x) then ys + [x] else ys, keep, if keep(x) then at + [|xs|] else at);
  }

  lemma PickedAtSnoc<T>(xs: seq<T>, ys: seq<T>, keep: T -> bool, x: T, at: seq<nat>)
    requires PickedAt(xs, ys, keep, at)
    ensures PickedAt(xs + [x], if keep(x) then ys + [x] else ys, keep, if keep(x) then at + [|xs|] else at)
  {
    var zs, ws, bt := xs + [x], if keep(x) then ys + [x] else ys, if keep(x) then at + [|xs|] else at;
    forall j, k | 0 <= j < k < |bt|
      ensures bt[j] < bt[k]
    {
      assert at[j] == bt[j] && (k < |at| ==> at[k] == bt[k]);
    }
    forall k | 0 <= k < |bt|
      ensures bt[k] < |zs| && ws[k] == zs[bt[k]]
    {
      assert k < |at| ==> at[k] == bt[k] && ys[k] == xs[at[k]];
    }
    forall i | 0 <= i < |zs|
      ensures keep(zs[i]) <==> i in bt
    {
      assert i < |xs| ==> zs[i] == xs[i] && (keep(xs[i]) <==> i in at);
    }
  }

  lemma PickedNone<T>(keep: T -> bool)
    ensures Picked<T>([], [], keep)
  {
    var none: seq<T> := [];
    assert PickedAt(none, none, keep, []);
  }

  /** The function index space starts with exactly the function imports, in order. */
  lemma {:induction false} FuncImportsPicked(imports: seq<Import>)
    ensures Picked(imports, FuncImports(imports), (i: Import) => i.desc.FuncImport?)
  {
    hide FuncImports, Picked;
    var keep := (i: Import) => i.desc.FuncImport?;
    if imports == [] {
      EmptySpaces();
      PickedNone(keep);
    } else {
      var init, i := imports[..|imports| - 1], imports[|imports| - 1];
      assert imports == init + [i];
      FuncImportsPicked(init);
      FuncImportsSnoc(init, i);
      PickedSnoc(init, FuncImports(init), keep, i);
      assert FuncImports(init) + [] == FuncImports(init);
    }
  }

  /** And that of globals with exactly the global imports. */
  lemma {:induction false} GlobalImportsPicked(imports: seq<Import>)
    ensures Picked(imports, GlobalImports(imports), (i: Import) => i.desc.GlobalImport?)
  {
    hide GlobalImports, Picked;
    var keep := (i: Import) => i.desc.GlobalImport?;
    if imports == [] {
      EmptySpaces();
      PickedNone(keep);
    } else {
      var init, i := imports[..|imports| - 1], imports[|imports| - 1];
      assert imports == init + [i];
      GlobalImportsPicked(init);
      GlobalImportsSnoc(init, i);
      PickedSnoc(init, GlobalImports(init), keep, i);
      assert GlobalImports(init) + [] == GlobalImports(init);
    }
  }

  lemma EmptySpaces()
    ensures FuncImports([]) == [] && GlobalImports([]) == []
  {
  }
}

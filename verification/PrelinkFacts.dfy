/** What internalizing the dynamic-linking imports does to indices, to segment offsets, and to the
    sections it writes. */
module PrelinkFacts {
  import opened Bytes
  import opened Leb128
  import opened ModuleTypes
  import opened ModuleCodec
  import opened WasmModule
  import O = Opcodes

  // ---- Function indices never move ----

  lemma {:induction false} FuncImportsKept(xs: seq<Import>, base: map<seq<byte>, int>)
    ensures FuncImports(KeptImports(xs, base)) == FuncImports(xs)
  {
    if xs != [] {
      var init, i := xs[..|xs| - 1], xs[|xs| - 1];
      FuncImportsKept(init, base);
      assert xs == init + [i];
      FuncImportsSnoc(init, i);
      FuncImportsSnoc(KeptImports(init, base), i);
      assert KeptImports(init, base) + [] == KeptImports(init, base);
    }
  }

  /** The call graph the pass works on, and every function index, is the same after Prelink. */
  lemma FunctionsStay(m: Mod, base: map<seq<byte>, int>)
    ensures FuncImports(Prelinked(m, base).imports) == FuncImports(m.imports)
    ensures Prelinked(m, base).codes == m.codes && Prelinked(m, base).funcs == m.funcs
  {
    FuncImportsKept(m.imports, base);
  }

  // ---- Global indices ----

  /** What a global index can denote: an import, or an entry of the global section as it is
      written there (type, mutability, initializer). */
  datatype Global = Imported(imp: Import) | Defined(def: seq<byte>)

  /** One entry of a global section. */
  function DefAt(s: seq<byte>): (r: Option<(seq<byte>, nat)>)
    ensures r.Some? ==> r.value.1 <= |s|
  {
    if |s| < 2 then None
    else match ConstLen(s[2..])
      case None => None
      case Some(k) => Some((s[..2 + k], 2 + k))
  }

  function AsImported(xs: seq<Import>): (r: seq<Global>)
    ensures |r| == |xs|
  {
    seq(|xs|, i requires 0 <= i < |xs| => Imported(xs[i]))
  }

  function AsDefined(ds: seq<seq<byte>>): (r: seq<Global>)
    ensures |r| == |ds|
  {
    seq(|ds|, i requires 0 <= i < |ds| => Defined(ds[i]))
  }

  /** The index space of globals (section 2.5.1): the global imports in order, then the entries of
      the global section. None when the section cannot be read. */
  function GlobalsOf(m: Mod): Option<seq<Global>> {
    match ReadMany(m.globals, m.globalN, DefAt)
    case None => None
    case Some((ds, _)) => Some(AsImported(GlobalImports(m.imports)) + AsDefined(ds))
  }

  predicate InBase(i: Import, base: map<seq<byte>, int>) {
    i.desc.GlobalImport? && i.name in base
  }

  /** The same global after internalizing: a base import is now defined, with its type, its
      mutability and its base value. */
  function Now(g: Global, base: map<seq<byte>, int>): Global {
    if g.Imported? && InBase(g.imp, base) then Defined(GlobalEntry(g.imp, base[g.imp.name])) else g
  }

  function AllNow(gs: seq<Global>, base: map<seq<byte>, int>): (r: seq<Global>)
    ensures |r| == |gs|
  {
    seq(|gs|, k requires 0 <= k < |gs| => Now(gs[k], base))
  }

  /** The definitions of the internalized globals, in import order. */
  function NewDefs(xs: seq<Import>, base: map<seq<byte>, int>): seq<seq<byte>> {
    if xs == [] then []
    else
      var init, i := xs[..|xs| - 1], xs[|xs| - 1];
      NewDefs(init, base) + if InBase(i, base) then [GlobalEntry(i, base[i.name])] else []
  }

  /** No kept global import comes after an internalized one. */
  predicate KeptFirst(xs: seq<Import>, base: map<seq<byte>, int>) {
    forall i, j | 0 <= i < j < |xs| ::
      InBase(xs[i], base) && xs[j].desc.GlobalImport? ==> InBase(xs[j], base)
  }

  predicate NoneNew(xs: seq<Import>, base: map<seq<byte>, int>) {
    forall i | 0 <= i < |xs| :: !InBase(xs[i], base)
  }

  /** The imported part of the index space, as it was and as it is now. */
  function OldImports(xs: seq<Import>, base: map<seq<byte>, int>): seq<Global> {
    AllNow(AsImported(GlobalImports(xs)), base)
  }

  function KeptGlobals(xs: seq<Import>, base: map<seq<byte>, int>): seq<Global> {
    AsImported(GlobalImports(KeptImports(xs, base)))
  }

  lemma KeptSnoc(init: seq<Import>, i: Import, base: map<seq<byte>, int>)
    ensures (init + [i])[..|init|] == init && (init + [i])[|init|] == i
    ensures KeptGlobals(init + [i], base) ==
            KeptGlobals(init, base) + (if i.desc.GlobalImport? && !InBase(i, base) then [Imported(i)] else [])
    ensures OldImports(init + [i], base) ==
            OldImports(init, base) + (if i.desc.GlobalImport? then [Now(Imported(i), base)] else [])
    ensures NewDefs(init + [i], base) ==
            NewDefs(init, base) + (if InBase(i, base) then [GlobalEntry(i, base[i.name])] else [])
  {
    hide GlobalEntry, GlobalImports, KeptImports, KeptGlobals, OldImports;
    assert (init + [i])[..|init|] == init;
    KeptGlobalsSnoc(init, i, base);
    OldImportsSnoc(init, i, base);
  }

  lemma KeptGlobalsSnoc(init: seq<Import>, i: Import, base: map<seq<byte>, int>)
    ensures KeptGlobals(init + [i], base) ==
            KeptGlobals(init, base) + (if i.desc.GlobalImport? && !InBase(i, base) then [Imported(i)] else [])
  {
    hide GlobalImports;
    assert (init + [i])[..|init|] == init;
    GlobalImportsSnoc(KeptImports(init, base), i);
    assert KeptImports(init, base) + [] == KeptImports(init, base);
  }

  lemma OldImportsSnoc(init: seq<Import>, i: Import, base: map<seq<byte>, int>)
    ensures OldImports(init + [i], base) ==
            OldImports(init, base) + (if i.desc.GlobalImport? then [Now(Imported(i), base)] else [])
  {
    hide GlobalImports, Now;
    GlobalImportsSnoc(init, i);
  }

  lemma {:induction false} NoneNewGlobals(xs: seq<Import>, base: map<seq<byte>, int>)
    ensures NoneNew(xs, base) <==> NewDefs(xs, base) == []
    ensures NoneNew(xs, base) ==> KeptGlobals(xs, base) == OldImports(xs, base)
  {
    hide KeptGlobals, OldImports, GlobalEntry;
    if xs != [] {
      var init, i := xs[..|xs| - 1], xs[|xs| - 1];
      assert xs == init + [i];
      NoneNewGlobals(init, base);
      KeptSnoc(init, i, base);
      assert NoneNew(xs, base) ==> NoneNew(init, base) by {
        assert forall k | 0 <= k < |init| :: init[k] == xs[k];
      }
    } else {
      NoGlobals(base);
    }
  }

  lemma NoGlobals(base: map<seq<byte>, int>)
    ensures KeptGlobals([], base) == [] && OldImports([], base) == [] && NewDefs([], base) == []
  {
  }

  lemma KeptFirstSnoc(init: seq<Import>, i: Import, base: map<seq<byte>, int>)
    ensures KeptFirst(init + [i], base) <==>
            KeptFirst(init, base) && (i.desc.GlobalImport? && !InBase(i, base) ==> NoneNew(init, base))
    ensures NoneNew(init, base) ==> KeptFirst(init, base)
  {
    var xs := init + [i];
    assert forall k | 0 <= k < |init| :: init[k] == xs[k];
    if KeptFirst(init, base) && (i.desc.GlobalImport? && !InBase(i, base) ==> NoneNew(init, base)) {
      forall a, b | 0 <= a < b < |xs| && InBase(xs[a], base) && xs[b].desc.GlobalImport?
        ensures InBase(xs[b], base)
      {
        assert xs[a] == init[a];
      }
    }
    if KeptFirst(xs, base) && i.desc.GlobalImport? && !InBase(i, base) {
      forall a | 0 <= a < |init|
        ensures !InBase(init[a], base)
      {
        assert xs[a] == init[a] && xs[|init|] == i;
      }
    }
  }

  lemma SnocEqual<T>(a: seq<T>, b: seq<T>, x: T)
    ensures a + [x] == b + [x] <==> a == b
  {
    if a + [x] == b + [x] {
      assert (a + [x])[..|a|] == a && (b + [x])[..|b|] == b;
    }
  }

  /** The imported part of the index space keeps its order exactly when the kept global imports all
      stand in front. */
  lemma {:induction false} ImportsSplit(xs: seq<Import>, base: map<seq<byte>, int>)
    ensures var news := AsDefined(NewDefs(xs, base));
            && |KeptGlobals(xs, base) + news| == |OldImports(xs, base)|
            && (KeptGlobals(xs, base) + news == OldImports(xs, base) <==> KeptFirst(xs, base))
  {
    hide KeptGlobals, OldImports, GlobalEntry;
    if xs == [] {
      NoGlobals(base);
    } else {
      var init, i := xs[..|xs| - 1], xs[|xs| - 1];
      assert xs == init + [i];
      ImportsSplit(init, base);
      NoneNewGlobals(init, base);
      KeptFirstSnoc(init, i, base);
      KeptSnoc(init, i, base);
      var kept, news, old_ := KeptGlobals(init, base), AsDefined(NewDefs(init, base)), OldImports(init, base);
      if !i.desc.GlobalImport? {
        assert AsDefined(NewDefs(xs, base)) == news;
        assert kept + [] == kept && old_ + [] == old_;
      } else if InBase(i, base) {
        var d := Defined(GlobalEntry(i, base[i.name]));
        assert AsDefined(NewDefs(xs, base)) == news + [d];
        assert kept + [] + (news + [d]) == kept + news + [d];
        SnocEqual(kept + news, old_, d);
      } else {
        assert AsDefined(NewDefs(xs, base)) == news;
        assert |news| == |NewDefs(init, base)|;
        KeptLast(kept, news, old_, i);
        assert KeptGlobals(xs, base) == kept + [Imported(i)] && OldImports(xs, base) == old_ + [Imported(i)];
      }
    }
  }

  lemma KeptLast(kept: seq<Global>, news: seq<Global>, old_: seq<Global>, i: Import)
    requires |kept + news| == |old_| && forall k | 0 <= k < |news| :: news[k].Defined?
    ensures news == [] ==> (kept + [Imported(i)] + news == old_ + [Imported(i)] <==> kept + news == old_)
    ensures news != [] ==> kept + [Imported(i)] + news != old_ + [Imported(i)]
  {
    var x := Imported(i);
    if news == [] {
      assert kept + [x] + news == kept + [x] && kept + news == kept;
      SnocEqual(kept, old_, x);
    } else {
      var a, b := kept + [x] + news, old_ + [x];
      assert a[|a| - 1] == news[|news| - 1] && b[|b| - 1] == x;
    }
  }

  // ---- The global section ----

  /** Both number formats end at the same byte. */
  lemma {:induction false} SameSpan(v: int, t: seq<byte>)
    ensures ReadU(PutS(v) + t).Some? && ReadU(PutS(v) + t).value.1 == |PutS(v)|
    decreases if v < 0 then -v else v
  {
    if -64 <= v < 64 {
    } else {
      SameSpan(v / 128, t);
      assert PutS(v) == [v % 128 + 128] + PutS(v / 128);
      assert (PutS(v) + t)[1..] == PutS(v / 128) + t;
    }
  }

  /** An entry Prelink writes is read back whole. */
  lemma EntryReads(i: Import, v: int, t: seq<byte>)
    requires i.desc.GlobalImport?
    ensures DefAt(GlobalEntry(i, v) + t) == Some((GlobalEntry(i, v), |GlobalEntry(i, v)|))
  {
    hide PutS, ReadU;
    var e := GlobalEntry(i, v);
    var s := (e + t)[2..];
    assert s == [0x41] + (PutS(v) + ([O.END] + t));
    assert s[1..] == PutS(v) + ([O.END] + t);
    SameSpan(v, [O.END] + t);
    var n := |PutS(v)|;
    assert s[1 + n..] == [O.END] + t;
    assert ConstLen(s[1 + n..]) == Some(1);
    assert ConstOperand(0x41, s[1..]) == Some(n);
    assert ConstLen(s) == Some(n + 2);
    assert (e + t)[..4 + n] == e;
  }

  lemma ManyStep<T>(s: seq<byte>, k: nat, item: Reader<T>)
    requires k > 0
    ensures ReadMany(s, k, item) ==
            if item(s).None? || item(s).value.1 > |s| then None
            else
              var (x, n) := item(s).value;
              var r := ReadMany(s[n..], k - 1, item);
              if r.None? then None else Some(([x] + r.value.0, n + r.value.1))
  {
  }

  lemma {:induction false} ManyThen<T>(s: seq<byte>, k: nat, j: nat, item: Reader<T>)
    requires ReadMany(s, k, item).Some?
    ensures var (xs, n) := ReadMany(s, k, item).value;
            var r := ReadMany(s[n..], j, item);
            ReadMany(s, k + j, item) == if r.None? then None else Some((xs + r.value.0, n + r.value.1))
    decreases k
  {
    hide ReadMany;
    if k == 0 {
      ManyNone(s, j, item);
    } else {
      ManyStep(s, k, item);
      ManyStep(s, k + j, item);
      var (x, n) := item(s).value;
      ManyThen(s[n..], k - 1, j, item);
      var (xs, l) := ReadMany(s[n..], k - 1, item).value;
      assert s[n..][l..] == s[n + l..];
      assert k + j - 1 == k - 1 + j;
      var r := ReadMany(s[n + l..], j, item);
      if r.Some? {
        assert [x] + (xs + r.value.0) == [x] + xs + r.value.0;
      }
    }
  }

  lemma ManyNone<T>(s: seq<byte>, j: nat, item: Reader<T>)
    ensures ReadMany(s, 0, item) == Some(([], 0)) && s[0..] == s
    ensures ReadMany(s, j, item).Some? ==> [] + ReadMany(s, j, item).value.0 == ReadMany(s, j, item).value.0
  {
  }

  /** The entries Prelink puts in front are the definitions of the internalized globals. */
  lemma {:induction false} NewDefsRead(xs: seq<Import>, base: map<seq<byte>, int>, t: seq<byte>)
    ensures var (entries, n) := NewGlobals(xs, base);
            && n == |NewDefs(xs, base)|
            && ReadMany(entries + t, n, DefAt) == Some((NewDefs(xs, base), |entries|))
  {
    hide GlobalEntry, DefAt;
    if xs != [] {
      var init, i := xs[..|xs| - 1], xs[|xs| - 1];
      var (entries, n) := NewGlobals(init, base);
      if InBase(i, base) {
        var e := GlobalEntry(i, base[i.name]);
        NewDefsRead(init, base, e + t);
        assert entries + (e + t) == entries + e + t;
        ManyThen(entries + e + t, n, 1, DefAt);
        assert (entries + e + t)[|entries|..] == e + t;
        EntryReads(i, base[i.name], t);
        OneRead(e, t);
      } else {
        NewDefsRead(init, base, t);
        assert NewDefs(xs, base) == NewDefs(init, base);
      }
    }
  }

  lemma OneRead(e: seq<byte>, t: seq<byte>)
    requires DefAt(e + t) == Some((e, |e|))
    ensures ReadMany(e + t, 1, DefAt) == Some(([e], |e|))
  {
    hide DefAt;
    ManyStep(e + t, 1, DefAt);
    assert ReadMany((e + t)[|e|..], 0, DefAt) == Some(([], 0));
    assert [e] + [] == [e];
  }

  /** The index space after Prelink: the kept imports, the internalized globals, the old entries. */
  lemma PrelinkedGlobals(m: Mod, base: map<seq<byte>, int>)
    requires ReadMany(m.globals, m.globalN, DefAt).Some? && m.globalN + NewGlobals(m.imports, base).1 < TWO_32
    ensures GlobalsOf(Prelinked(m, base)) ==
            Some(KeptGlobals(m.imports, base) + AsDefined(NewDefs(m.imports, base))
                 + AsDefined(ReadMany(m.globals, m.globalN, DefAt).value.0))
  {
    hide DefAt, ReadMany, NewGlobals, KeptImports, NewMems, NewTables, FoldElems, FoldDatas;
    var (entries, n) := NewGlobals(m.imports, base);
    var news, ds := NewDefs(m.imports, base), ReadMany(m.globals, m.globalN, DefAt).value.0;
    NewDefsRead(m.imports, base, m.globals);
    ManyThen(entries + m.globals, n, m.globalN, DefAt);
    assert (entries + m.globals)[|entries|..] == m.globals;
    assert AsDefined(news + ds) == AsDefined(news) + AsDefined(ds);
    var kept := KeptGlobals(m.imports, base);
    assert kept + (AsDefined(news) + AsDefined(ds)) == kept + AsDefined(news) + AsDefined(ds);
  }

  /** Every global index of the prelinked module denotes the same global as before exactly when the
      kept global imports all precede the internalized ones. The indices of the entries of the
      original global section never move. */
  lemma GlobalIndicesStay(m: Mod, base: map<seq<byte>, int>)
    requires GlobalsOf(m).Some? && m.globalN + NewGlobals(m.imports, base).1 < TWO_32
    ensures GlobalsOf(Prelinked(m, base)).Some?
    ensures var before, after := GlobalsOf(m).value, GlobalsOf(Prelinked(m, base)).value;
            && |after| == |before|
            && ((forall k | 0 <= k < |before| :: after[k] == Now(before[k], base)) <==> KeptFirst(m.imports, base))
            && (forall k | |GlobalImports(m.imports)| <= k < |before| :: after[k] == before[k])
  {
    hide DefAt, ReadMany, NewGlobals, Prelinked, KeptImports, NewDefs, GlobalEntry, KeptFirst;
    PrelinkedGlobals(m, base);
    ImportsSplit(m.imports, base);
    var ds := AsDefined(ReadMany(m.globals, m.globalN, DefAt).value.0);
    var imps := AsImported(GlobalImports(m.imports));
    var head := KeptGlobals(m.imports, base) + AsDefined(NewDefs(m.imports, base));
    SameSpace(imps, head, ds, base);
  }

  lemma SameSpace(imps: seq<Global>, head: seq<Global>, ds: seq<Global>, base: map<seq<byte>, int>)
    requires |head| == |imps| && forall k | 0 <= k < |ds| :: ds[k].Defined?
    ensures (forall k | 0 <= k < |imps + ds| :: (head + ds)[k] == Now((imps + ds)[k], base)) <==>
            head == AllNow(imps, base)
  {
    if forall k | 0 <= k < |imps + ds| :: (head + ds)[k] == Now((imps + ds)[k], base) {
      forall k | 0 <= k < |imps|
        ensures head[k] == AllNow(imps, base)[k]
      {
        assert (head + ds)[k] == head[k] && (imps + ds)[k] == imps[k];
      }
    }
  }

  // ---- One global at a time ----

  /** How many of these global imports are kept. */
  function KeptCount(gs: seq<Import>, base: map<seq<byte>, int>): (n: nat)
    ensures n <= |gs|
  {
    if gs == [] then 0
    else KeptCount(gs[..|gs| - 1], base) + if InBase(gs[|gs| - 1], base) then 0 else 1
  }

  /** The index global import k has after internalizing: behind the kept ones in front of it, or
      behind all the kept ones and the internalized ones in front of it. */
  function MovedTo(gs: seq<Import>, base: map<seq<byte>, int>, k: nat): nat
    requires k < |gs|
  {
    var kept := KeptCount(gs[..k], base);
    if InBase(gs[k], base) then KeptCount(gs, base) + (k - kept) else kept
  }

  /** All global imports from a to b are kept. */
  predicate KeptBetween(gs: seq<Import>, base: map<seq<byte>, int>, a: nat, b: nat)
    requires b <= |gs|
  {
    forall j | a <= j < b :: !InBase(gs[j], base)
  }

  predicate NewBetween(gs: seq<Import>, base: map<seq<byte>, int>, a: nat, b: nat)
    requires b <= |gs|
  {
    forall j | a <= j < b :: InBase(gs[j], base)
  }

  /** Counting from k on: nothing is added exactly if nothing is kept, and one for each exactly if
      all are. */
  lemma {:induction false} CountFrom(gs: seq<Import>, base: map<seq<byte>, int>, k: nat)
    requires k <= |gs|
    ensures KeptCount(gs[..k], base) <= KeptCount(gs, base) <= KeptCount(gs[..k], base) + |gs| - k
    ensures KeptCount(gs, base) == KeptCount(gs[..k], base) <==> NewBetween(gs, base, k, |gs|)
    ensures KeptCount(gs, base) == KeptCount(gs[..k], base) + |gs| - k <==> KeptBetween(gs, base, k, |gs|)
    decreases |gs|
  {
    hide InBase;
    if k == |gs| {
      assert gs[..k] == gs;
    } else {
      var init := gs[..|gs| - 1];
      assert init[..k] == gs[..k];
      CountFrom(init, base, k);
    }
  }

  /** The global stays where it is exactly when what is between its old and its new place is as it is:
      an internalized one needs every kept one in front of it, a kept one needs no internalized one
      in front of it. */
  lemma StaysIff(gs: seq<Import>, base: map<seq<byte>, int>, k: nat)
    requires k < |gs|
    ensures MovedTo(gs, base, k) == k <==>
            if InBase(gs[k], base) then NewBetween(gs, base, k, |gs|) else KeptBetween(gs, base, 0, k)
  {
    hide InBase;
    CountFrom(gs, base, k);
    CountFrom(gs[..k], base, 0);
    assert gs[..k][..0] == [];
  }

  /** No two globals come to the same index. */
  lemma MovedApart(gs: seq<Import>, base: map<seq<byte>, int>, j: nat, k: nat)
    requires j < k < |gs|
    ensures MovedTo(gs, base, j) != MovedTo(gs, base, k) && MovedTo(gs, base, k) < |gs|
  {
    hide InBase;
    var front := gs[..k];
    assert front[..j] == gs[..j] && gs[..j + 1][..j] == gs[..j] && front[..j + 1] == gs[..j + 1];
    assert gs[..k + 1][..k] == front;
    CountFrom(front, base, j + 1);
    CountFrom(gs, base, k + 1);
    CountFrom(gs, base, k);
  }

  lemma CountSnoc(gs: seq<Import>, i: Import, base: map<seq<byte>, int>)
    ensures KeptCount(gs + [i], base) == KeptCount(gs, base) + if InBase(i, base) then 0 else 1
    ensures forall k | 0 <= k <= |gs| :: (gs + [i])[..k] == gs[..k]
  {
    assert (gs + [i])[..|gs|] == gs;
  }

  /** What stands at the new index: the import itself, or its definition. */
  lemma {:induction false} MovedParts(xs: seq<Import>, base: map<seq<byte>, int>, k: nat)
    requires k < |GlobalImports(xs)|
    ensures var gs, kept := GlobalImports(xs), KeptGlobals(xs, base);
            && |kept| == KeptCount(gs, base) && |NewDefs(xs, base)| == |gs| - KeptCount(gs, base)
            && var n := KeptCount(gs[..k], base);
            && n <= k
            && (if InBase(gs[k], base) then
                  && k - n < |NewDefs(xs, base)|
                  && NewDefs(xs, base)[k - n] == GlobalEntry(gs[k], base[gs[k].name])
                else n < |kept| && kept[n] == Imported(gs[k]))
  {
    hide KeptGlobals, OldImports, GlobalEntry, GlobalImports, KeptCount, InBase, NewDefs;
    NoImports();
    var init, i := xs[..|xs| - 1], xs[|xs| - 1];
    assert xs == init + [i];
    GlobalImportsSnoc(init, i);
    KeptSnoc(init, i, base);
    GlobalOnly(i, base);
    Counts(init, base);
    Counts(xs, base);
    var gs, before := GlobalImports(xs), GlobalImports(init);
    if i.desc.GlobalImport? {
      assert gs == before + [i];
      CountSnoc(before, i, base);
      assert gs[..|before|] == before;
    } else {
      assert gs == before;
    }
    if k < |before| {
      MovedParts(init, base, k);
      assert gs[..k] == before[..k] && gs[k] == before[k];
    }
  }

  lemma GlobalOnly(i: Import, base: map<seq<byte>, int>)
    ensures InBase(i, base) ==> i.desc.GlobalImport?
  {
  }

  lemma NoImports()
    ensures GlobalImports([]) == []
  {
  }

  lemma {:induction false} Counts(xs: seq<Import>, base: map<seq<byte>, int>)
    ensures var gs := GlobalImports(xs);
            && |KeptGlobals(xs, base)| == KeptCount(gs, base)
            && |NewDefs(xs, base)| == |gs| - KeptCount(gs, base)
  {
    hide KeptGlobals, OldImports, GlobalEntry, GlobalImports;
    if xs == [] {
      NoImports();
      NoGlobals(base);
    } else {
      var init, i := xs[..|xs| - 1], xs[|xs| - 1];
      assert xs == init + [i];
      Counts(init, base);
      GlobalImportsSnoc(init, i);
      KeptSnoc(init, i, base);
      var gs, before := GlobalImports(xs), GlobalImports(init);
      assert !i.desc.GlobalImport? ==> gs == before;
      assert i.desc.GlobalImport? ==> gs == before + [i] && gs[..|before|] == before;
    }
  }

  /** Where each imported global is after Prelink, and exactly when that is where it was. */
  lemma GlobalMoves(m: Mod, base: map<seq<byte>, int>, k: nat)
    requires GlobalsOf(m).Some? && m.globalN + NewGlobals(m.imports, base).1 < TWO_32
    requires k < |GlobalImports(m.imports)|
    ensures GlobalsOf(Prelinked(m, base)).Some?
    ensures var gs := GlobalImports(m.imports);
            var before, after, to := GlobalsOf(m).value, GlobalsOf(Prelinked(m, base)).value, MovedTo(gs, base, k);
            && k < |before| && before[k] == Imported(gs[k])
            && to < |after| && after[to] == Now(before[k], base)
            && (to == k <==> if InBase(gs[k], base) then NewBetween(gs, base, k, |gs|) else KeptBetween(gs, base, 0, k))
  {
    hide DefAt, ReadMany, NewGlobals, Prelinked, KeptImports, NewDefs, GlobalEntry, InBase, KeptGlobals, KeptBetween,
         NewBetween, GlobalImports;
    PrelinkedGlobals(m, base);
    MovedParts(m.imports, base, k);
    StaysIff(GlobalImports(m.imports), base, k);
  }

  /** The index Prelink remembers for the stack pointer names it in the original module; and it names
      it in the prelinked one, where Instrument uses it, exactly if every kept global import is in
      front of it, or, when the stack pointer itself is kept, if no internalized one is. */
  lemma StackPointerStays(m: Mod, base: map<seq<byte>, int>)
    requires GlobalsOf(m).Some? && m.globalN + NewGlobals(m.imports, base).1 < TWO_32
    requires GlobalIndex(m.imports, STACK_POINTER) >= 0
    ensures GlobalsOf(Prelinked(m, base)).Some?
    ensures var sp, gs := GlobalIndex(m.imports, STACK_POINTER), GlobalImports(m.imports);
            && sp < |gs|
            && var before, after := GlobalsOf(m).value, GlobalsOf(Prelinked(m, base)).value;
               var to := MovedTo(gs, base, sp);
            && sp < |before| && before[sp].Imported? && before[sp].imp.name == STACK_POINTER
            && to < |after| && after[to] == Now(before[sp], base)
            && (to == sp <==>
                if InBase(gs[sp], base) then NewBetween(gs, base, sp, |gs|) else KeptBetween(gs, base, 0, sp))
  {
    hide ReadMany, Prelinked, NewGlobals, MovedTo, InBase, KeptBetween, NewBetween, Now;
    GlobalIndexNames(m.imports, STACK_POINTER);
    GlobalMoves(m, base, GlobalIndex(m.imports, STACK_POINTER));
  }

  /** A module on which they do move: a global that is kept behind one that is not. */
  lemma GlobalIndicesCanMove()
    ensures var a := Import([], [1], GlobalImport(I32, true));
            var b := Import([], [2], GlobalImport(I32, true));
            var m := EMPTY.(imports := [a, b]);
            && GlobalsOf(m) == Some([Imported(a), Imported(b)])
            && GlobalsOf(Prelinked(m, map[[1] := 0])) == Some([Imported(b), Defined(GlobalEntry(a, 0))])
  {
    hide ReadMany, GlobalEntry, KeptGlobals, OldImports, NewDefs, NewGlobals, Prelinked, DefAt;
    var a := Import([], [1], GlobalImport(I32, true));
    var b := Import([], [2], GlobalImport(I32, true));
    var base: map<seq<byte>, int> := map[[1] := 0];
    assert a.name[0] != b.name[0];
    NoGlobals(base);
    KeptSnoc([], a, base);
    KeptSnoc([a], b, base);
    assert [] + [a] == [a] && [a] + [b] == [a, b];
    NoDefs();
    NewDefsRead([a, b], base, []);
    PrelinkedGlobals(EMPTY.(imports := [a, b]), base);
    GlobalImportsSnoc([], a);
    GlobalImportsSnoc([a], b);
    assert GlobalImports([]) == [] && [] + [a] == [a];
    assert AsImported([a, b]) + AsDefined([]) == [Imported(a), Imported(b)];
    assert base[a.name] == 0;
    assert KeptGlobals([a, b], base) == [Imported(b)];
    assert NewDefs([a, b], base) == [GlobalEntry(a, 0)];
    var d := Defined(GlobalEntry(a, 0));
    assert AsDefined([GlobalEntry(a, 0)]) == [d];
    assert [Imported(b)] + [d] + AsDefined([]) == [Imported(b), d];
  }

  lemma NoDefs()
    ensures ReadMany([], 0, DefAt) == Some(([], 0))
  {
  }

  // ---- Segment offsets ----

  /** The value of an offset expression of one constant, given the globals' values; None for
      expressions with more than one instruction. */
  function OffsetValue(e: seq<byte>, globals: nat -> int): Option<int> {
    if e == [] then None
    else if e[0] == 0x23 then
      match O.U32At(e[1..])
      case None => None
      case Some((x, n)) => if e[1 + n..] == [O.END] then Some(globals(x)) else None
    else if e[0] == 0x41 then
      match ReadS(e[1..])
      case None => None
      case Some((v, n)) => if e[1 + n..] == [O.END] then Some(v) else None
    else None
  }

  lemma FoldedValue(globals: nat -> int)
    ensures OffsetValue([0x41, 0, O.END], globals) == Some(0)
  {
    var e: seq<byte> := [0x41, 0, O.END];
    assert e[1..] == [0, O.END];
    assert ReadS(e[1..]) == Some((0, 1));
    assert e[2..] == [O.END];
  }

  /** The offset names no global, or one whose value is 0. */
  predicate RefersToZero(e: seq<byte>, globals: nat -> int) {
    e != [] && e[0] == 0x23 ==> OffsetValue(e, globals) == Some(0)
  }

  /** Folding keeps where a segment goes exactly when the global it names, if any, is 0, whatever
      the globals of the prelinked module are. */
  lemma FoldKeepsOffset(e: seq<byte>, globals: nat -> int, now: nat -> int)
    ensures OffsetValue(FoldOffset(e), now) == OffsetValue(e, globals) <==> RefersToZero(e, globals)
    ensures ConstExpr(e) ==> ConstExpr(FoldOffset(e))
  {
    FoldedValue(now);
    if e != [] && e[0] == 0x23 {
      assert FoldOffset(e) == [0x41, 0, O.END];
      FoldedConst();
    }
  }

  lemma FoldedConst()
    ensures ConstExpr([0x41, 0, O.END])
  {
    var e: seq<byte> := [0x41, 0, O.END];
    assert e[1..] == [0, O.END] && ReadU(e[1..]) == Some((0, 1));
    assert e[2..] == [O.END] && ConstLen(e[2..]) == Some(1);
  }

  // ---- Instantiation ----

  /** The entries from `at` on replaced by ys; None, a trap, if they do not fit. */
  function Filled<T>(xs: seq<T>, at: nat, ys: seq<T>): Option<seq<T>> {
    if at + |ys| > |xs| then None else Some(xs[..at] + ys + xs[at + |ys|..])
  }

  /** Active data segments are copied one after the other (section 4.5.4). */
  function FillMemory(ds: seq<DataSeg>, mem: seq<byte>, globals: nat -> int): Option<seq<byte>> {
    if ds == [] then Some(mem)
    else
      var at := OffsetValue(ds[0].offset, globals);
      if at.None? then None
      else
        var next := Filled(mem, at.value % TWO_32, ds[0].data);
        if next.None? then None else FillMemory(ds[1..], next.value, globals)
  }

  type Table = seq<Option<nat>>

  function Refs(fs: seq<nat>): Table { seq(|fs|, i requires 0 <= i < |fs| => Some(fs[i])) }

  function FillTable(es: seq<ElemSeg>, table: Table, globals: nat -> int): Option<Table> {
    if es == [] then Some(table)
    else
      var at := OffsetValue(es[0].offset, globals);
      if at.None? then None
      else
        var next := Filled(table, at.value % TWO_32, Refs(es[0].funcs));
        if next.None? then None else FillTable(es[1..], next.value, globals)
  }

  function MemImports(xs: seq<Import>): seq<Limits> {
    if xs == [] then []
    else
      var init, i := xs[..|xs| - 1], xs[|xs| - 1];
      MemImports(init) + if i.desc.MemImport? then [i.desc.limits] else []
  }

  function TableImports(xs: seq<Import>): seq<Limits> {
    if xs == [] then []
    else
      var init, i := xs[..|xs| - 1], xs[|xs| - 1];
      TableImports(init) + if i.desc.TableImport? then [i.desc.limits] else []
  }

  function MemLimitsAt(s: seq<byte>): Option<(Limits, nat)> { LimitsAt(s, false) }

  function TableLimitsAt(s: seq<byte>): Option<(Limits, nat)> {
    if s == [] then None
    else match LimitsAt(s[1..], true) case None => None case Some((l, n)) => Some((l, 1 + n))
  }

  function FirstOf(s: seq<byte>, item: Reader<Limits>): Option<Limits> {
    match ReadVec(s, item) case None => None case Some((ls, _)) => if ls == [] then None else Some(ls[0])
  }

  /** The limits of memory 0 and of table 0: an import's, or those of the section. */
  function MemoryOf(m: Mod): Option<Limits> {
    var is_ := MemImports(m.imports);
    if is_ != [] then Some(is_[0]) else FirstOf(m.newMems, MemLimitsAt)
  }

  function TableOf(m: Mod): Option<Limits> {
    var is_ := TableImports(m.imports);
    if is_ != [] then Some(is_[0]) else FirstOf(m.newTables, TableLimitsAt)
  }

  const PAGE := 0x1_0000

  /** What a fresh instance holds: a zeroed memory and an empty table of the least sizes, filled by
      the segments; None for a trap. */
  function Instantiated(m: Mod, globals: nat -> int): Option<(seq<byte>, Table)> {
    var pages := if MemoryOf(m).Some? then MemoryOf(m).value.min else 0;
    var entries := if TableOf(m).Some? then TableOf(m).value.min else 0;
    var table := FillTable(m.elems, seq(entries, i => None), globals);
    var memory := FillMemory(m.datas, seq(PAGE * pages, i => 0), globals);
    if table.None? || memory.None? then None else Some((memory.value, table.value))
  }

  lemma {:induction false} SameMemory(ds: seq<DataSeg>, mem: seq<byte>, globals: nat -> int, now: nat -> int)
    requires forall i | 0 <= i < |ds| :: RefersToZero(ds[i].offset, globals)
    ensures FillMemory(FoldDatas(ds), mem, now) == FillMemory(ds, mem, globals)
    decreases |ds|
  {
    hide OffsetValue, FoldOffset, RefersToZero;
    if ds != [] {
      FoldKeepsOffset(ds[0].offset, globals, now);
      var at := OffsetValue(ds[0].offset, globals);
      assert FoldDatas(ds)[1..] == FoldDatas(ds[1..]);
      if at.Some? && Filled(mem, at.value % TWO_32, ds[0].data).Some? {
        SameMemory(ds[1..], Filled(mem, at.value % TWO_32, ds[0].data).value, globals, now);
      }
    }
  }

  lemma {:induction false} SameTable(es: seq<ElemSeg>, table: Table, globals: nat -> int, now: nat -> int)
    requires forall i | 0 <= i < |es| :: RefersToZero(es[i].offset, globals)
    ensures FillTable(FoldElems(es), table, now) == FillTable(es, table, globals)
    decreases |es|
  {
    hide OffsetValue, FoldOffset, RefersToZero;
    if es != [] {
      FoldKeepsOffset(es[0].offset, globals, now);
      var at := OffsetValue(es[0].offset, globals);
      assert FoldElems(es)[1..] == FoldElems(es[1..]);
      if at.Some? && Filled(table, at.value % TWO_32, Refs(es[0].funcs)).Some? {
        SameTable(es[1..], Filled(table, at.value % TWO_32, Refs(es[0].funcs)).value, globals, now);
      }
    }
  }

  /** At most one memory and one table, imported or defined. */
  predicate OneOfEach(m: Mod) {
    && |MemImports(m.imports)| <= 1 && (MemImports(m.imports) != [] ==> m.newMems == [])
    && |TableImports(m.imports)| <= 1 && (TableImports(m.imports) != [] ==> m.newTables == [])
    && (forall l | l in MemImports(m.imports) :: GoodLimits(l, false))
    && (forall l | l in TableImports(m.imports) :: GoodLimits(l, true))
  }

  lemma {:induction false} NoneKept(xs: seq<Import>, base: map<seq<byte>, int>)
    ensures MemImports(KeptImports(xs, base)) == [] && TableImports(KeptImports(xs, base)) == []
  {
    if xs != [] {
      var init, i := xs[..|xs| - 1], xs[|xs| - 1];
      NoneKept(init, base);
      var kept := KeptImports(init, base);
      if Internalized(i, base) {
        assert kept + [] == kept;
      } else {
        assert (kept + [i])[..|kept|] == kept;
        assert !i.desc.MemImport? && !i.desc.TableImport?;
      }
    }
  }

  lemma {:induction false} MemSection(xs: seq<Import>, old_: seq<byte>)
    requires |MemImports(xs)| <= 1
    ensures NewMems(xs, old_) == if MemImports(xs) == [] then old_ else PutU(1) + PutLimits(MemImports(xs)[0])
  {
    hide PutU, PutLimits;
    if xs != [] {
      MemSection(xs[..|xs| - 1], old_);
    }
  }

  lemma {:induction false} TableSection(xs: seq<Import>, old_: seq<byte>) returns (elem: byte)
    requires |TableImports(xs)| <= 1
    ensures NewTables(xs, old_) ==
            if TableImports(xs) == [] then old_
            else PutU(1) + [elem] + PutLimits(TableImports(xs)[0].(shared := false))
  {
    hide PutU, PutLimits;
    elem := 0;
    if xs != [] {
      var i := xs[|xs| - 1];
      elem := TableSection(xs[..|xs| - 1], old_);
      if i.desc.TableImport? {
        elem := i.desc.elem;
      }
    }
  }

  lemma SizesStay(m: Mod, base: map<seq<byte>, int>)
    requires OneOfEach(m)
    ensures MemoryOf(Prelinked(m, base)) == MemoryOf(m) && TableOf(Prelinked(m, base)) == TableOf(m)
  {
    hide PutU, PutLimits, ReadVec, MemImports, TableImports, LimitsAt, NewGlobals;
    NoneKept(m.imports, base);
    MemSection(m.imports, m.newMems);
    var elem := TableSection(m.imports, m.newTables);
    if MemImports(m.imports) != [] {
      MemSectionReads(MemImports(m.imports)[0]);
    }
    if TableImports(m.imports) != [] {
      TableSectionReads(elem, TableImports(m.imports)[0]);
    }
  }

  /** A fresh instance of the prelinked module holds what one of the original does: the same memory
      and the same table, if the globals that segment offsets name are 0. */
  lemma InstantiationStays(m: Mod, base: map<seq<byte>, int>, globals: nat -> int, now: nat -> int)
    requires OneOfEach(m)
    requires forall i | 0 <= i < |m.elems| :: RefersToZero(m.elems[i].offset, globals)
    requires forall i | 0 <= i < |m.datas| :: RefersToZero(m.datas[i].offset, globals)
    ensures Instantiated(Prelinked(m, base), now) == Instantiated(m, globals)
  {
    hide MemoryOf, TableOf, FillMemory, FillTable, FoldDatas, FoldElems, RefersToZero, KeptImports, NewGlobals, NewMems,
         NewTables;
    SizesStay(m, base);
    var pages := if MemoryOf(m).Some? then MemoryOf(m).value.min else 0;
    var entries := if TableOf(m).Some? then TableOf(m).value.min else 0;
    SameTable(m.elems, seq(entries, i => None), globals, now);
    SameMemory(m.datas, seq(PAGE * pages, i => 0), globals, now);
  }

  /** The host gives the base imports their base values, and every segment is placed at a base
      import with value 0 or at a constant: so it is for the position-independent modules the pass
      is made for. */
  lemma BaseOffsetsAreZero(m: Mod, base: map<seq<byte>, int>, globals: nat -> int, x: nat)
    requires x < |GlobalImports(m.imports)| && InBase(GlobalImports(m.imports)[x], base) && x < TWO_32
    requires base[GlobalImports(m.imports)[x].name] == 0
    requires globals(x) == base[GlobalImports(m.imports)[x].name]
    ensures RefersToZero([0x23] + PutU(x) + [O.END], globals)
  {
    hide PutU, ReadU;
    var e := [0x23] + PutU(x) + [O.END];
    ReadPutU(x, [O.END]);
    assert e[1..] == PutU(x) + [O.END];
    assert e[1 + |PutU(x)|..] == [O.END];
  }

  // ---- The sections Prelink writes ----

  /** The synthesized memory section is one memory with the import's own limits. */
  lemma MemSectionReads(l: Limits)
    requires GoodLimits(l, false)
    ensures FirstOf(PutU(1) + PutLimits(l), MemLimitsAt) == Some(l)
    ensures ReadVec(PutU(1) + PutLimits(l), MemLimitsAt) == Some(([l], |PutU(1) + PutLimits(l)|))
  {
    hide PutU, LimitsAt, PutLimits, O.U32At;
    assert Inverse(l, MemLimitsAt, PutLimits) by {
      forall t: seq<byte>
        ensures MemLimitsAt(PutLimits(l) + t) == Some((l, |PutLimits(l)|))
      {
        LimitsRoundTrip(l, false, t);
      }
    }
    OneWritten(l, MemLimitsAt, PutLimits);
  }

  lemma OneWritten(l: Limits, item: Reader<Limits>, put: Limits -> seq<byte>)
    requires Inverse(l, item, put)
    ensures ReadVec(PutU(1) + put(l), item) == Some(([l], |PutU(1) + put(l)|))
  {
    hide PutU, ReadVec, Inverse;
    assert [l][1..] == [] && WriteMany([], put) == [];
    assert WriteVec([l], put) == PutU(1) + put(l);
    VecRoundTrip([l], item, put, []);
    assert WriteVec([l], put) + [] == WriteVec([l], put);
  }

  /** The synthesized table section is one table with the import's own limits. */
  lemma TableSectionReads(elem: byte, l: Limits)
    requires GoodLimits(l, true)
    ensures FirstOf(PutU(1) + [elem] + PutLimits(l.(shared := false)), TableLimitsAt) == Some(l)
  {
    hide PutU, LimitsAt, PutLimits, O.U32At;
    var put: Limits -> seq<byte> := x => [elem] + PutLimits(x);
    assert l.(shared := false) == l;
    assert Inverse(l, TableLimitsAt, put) by {
      forall t: seq<byte>
        ensures TableLimitsAt(put(l) + t) == Some((l, |put(l)|))
      {
        LimitsRoundTrip(l, true, t);
        assert (put(l) + t)[1..] == PutLimits(l) + t;
      }
    }
    OneWritten(l, TableLimitsAt, put);
    assert PutU(1) + [elem] + PutLimits(l) == PutU(1) + put(l);
  }

  /** A table of a table section: its element type and its limits. */
  function TableAt(s: seq<byte>): Option<((byte, Limits), nat)> {
    if s == [] then None
    else match LimitsAt(s[1..], true)
      case None => None
      case Some((l, n)) => Some(((s[0], l), n + 1))
  }

  /** Out of a prelinked module the last imported memory is read as its one memory, and the last
      imported table as its one table; without one the section is the old one. */
  lemma {:induction false} MemoryWritten(m: Mod, base: map<seq<byte>, int>, i: int)
    requires -1 <= i < |m.imports| && (forall j | i < j < |m.imports| :: !m.imports[j].desc.MemImport?)
    requires i >= 0 ==> m.imports[i].desc.MemImport? && GoodLimits(m.imports[i].desc.limits, false)
    ensures var s := Prelinked(m, base).newMems;
            if i < 0 then s == m.newMems
            else ReadVec(s, MemLimitsAt) == Some(([m.imports[i].desc.limits], |s|))
  {
    hide PutU, ReadVec, PutLimits, KeptImports, NewGlobals, NewTables;
    LastMemory(m.imports, m.newMems, i);
    if i >= 0 {
      MemSectionReads(m.imports[i].desc.limits);
    }
  }

  lemma {:induction false} LastMemory(xs: seq<Import>, section: seq<byte>, i: int)
    requires -1 <= i < |xs| && (forall j | i < j < |xs| :: !xs[j].desc.MemImport?)
    requires i >= 0 ==> xs[i].desc.MemImport?
    ensures NewMems(xs, section) == if i < 0 then section else PutU(1) + PutLimits(xs[i].desc.limits)
    decreases |xs|
  {
    if i < |xs| - 1 {
      LastMemory(xs[..|xs| - 1], section, i);
    }
  }

  lemma {:induction false} TableWritten(m: Mod, base: map<seq<byte>, int>, i: int)
    requires -1 <= i < |m.imports| && (forall j | i < j < |m.imports| :: !m.imports[j].desc.TableImport?)
    requires i >= 0 ==> m.imports[i].desc.TableImport? && GoodLimits(m.imports[i].desc.limits, true)
    ensures var s := Prelinked(m, base).newTables;
            if i < 0 then s == m.newTables
            else && |s| > 1 && s[0] == 1
                 && TableAt(s[1..]) == Some(((m.imports[i].desc.elem, m.imports[i].desc.limits), |s| - 1))
  {
    hide LimitsAt, PutLimits, PutU, KeptImports, NewGlobals, NewMems, NewTables, TableAt;
    LastTable(m.imports, m.newTables, i);
    if i >= 0 {
      OneTable(m.imports[i].desc.elem, m.imports[i].desc.limits);
    }
  }

  lemma {:induction false} OneTable(elem: byte, l: Limits)
    requires GoodLimits(l, true)
    ensures var s := PutU(1) + [elem] + PutLimits(l.(shared := false));
            |s| > 1 && s[0] == 1 && TableAt(s[1..]) == Some(((elem, l), |s| - 1))
  {
    hide LimitsAt, PutLimits;
    assert l.(shared := false) == l && PutU(1) == [1];
    LimitsRoundTrip(l, true, []);
    var s := [1] + [elem] + PutLimits(l);
    assert s[1..] == [elem] + PutLimits(l) && s[1..][1..] == PutLimits(l) + [];
  }

  lemma {:induction false} LastTable(xs: seq<Import>, section: seq<byte>, i: int)
    requires -1 <= i < |xs| && (forall j | i < j < |xs| :: !xs[j].desc.TableImport?)
    requires i >= 0 ==> xs[i].desc.TableImport?
    ensures NewTables(xs, section) ==
            if i < 0 then section
            else PutU(1) + [xs[i].desc.elem] + PutLimits(xs[i].desc.limits.(shared := false))
    decreases |xs|
  {
    if i < |xs| - 1 {
      LastTable(xs[..|xs| - 1], section, i);
    }
  }

  /** A global entry, read back: its type, its mutability, and its initial value. */
  function EntryAt(s: seq<byte>): Option<((byte, bool, int), nat)> {
    if |s| < 3 || s[2] != 0x41 then None
    else match ReadS(s[3..])
      case None => None
      case Some((v, n)) => if 3 + n < |s| && s[3 + n] == O.END then Some(((s[0], s[1] == 1, v), 4 + n)) else None
  }

  /** The internalized globals, in import order, each with its base value. */
  function EntriesOf(xs: seq<Import>, base: map<seq<byte>, int>): seq<(byte, bool, int)> {
    if xs == [] then []
    else
      var init, i := xs[..|xs| - 1], xs[|xs| - 1];
      EntriesOf(init, base)
      + if InBase(i, base) then [(i.desc.gtype, i.desc.mutable, base[i.name])] else []
  }

  function PutEntry(g: (byte, bool, int)): seq<byte> {
    [g.0, if g.1 then 1 else 0, 0x41] + PutS(g.2) + [O.END]
  }

  lemma EntryInverse(g: (byte, bool, int))
    ensures Inverse(g, EntryAt, PutEntry)
  {
    hide PutS, ReadS;
    forall t: seq<byte>
      ensures EntryAt(PutEntry(g) + t) == Some((g, |PutEntry(g)|))
    {
      ReadPutS(g.2, [O.END] + t);
      assert (PutEntry(g) + t)[3..] == PutS(g.2) + ([O.END] + t);
    }
  }

  lemma {:induction false} EntriesWritten(xs: seq<Import>, base: map<seq<byte>, int>)
    ensures NewGlobals(xs, base).0 == WriteMany(EntriesOf(xs, base), PutEntry)
    ensures NewGlobals(xs, base).1 == |EntriesOf(xs, base)|
  {
    hide PutS;
    if xs != [] {
      var init, i := xs[..|xs| - 1], xs[|xs| - 1];
      EntriesWritten(init, base);
      if InBase(i, base) {
        WriteManySnoc(EntriesOf(init, base), (i.desc.gtype, i.desc.mutable, base[i.name]), PutEntry);
      } else {
        assert EntriesOf(init, base) + [] == EntriesOf(init, base);
      }
    }
  }

  /** The new global section starts with the internalized globals, in import order, each with its
      own type and mutability and its base value, and goes on with the old definitions. */
  lemma NewGlobalsRead(m: Mod, base: map<seq<byte>, int>)
    ensures var es := EntriesOf(m.imports, base);
            var (entries, n) := NewGlobals(m.imports, base);
            && Prelinked(m, base).globals == entries + m.globals
            && n == |es|
            && ReadMany(Prelinked(m, base).globals, n, EntryAt) == Some((es, |entries|))
  {
    hide EntryAt, PutEntry, Inverse, NewGlobals, EntriesOf, ReadMany, WriteMany;
    var es := EntriesOf(m.imports, base);
    EntriesWritten(m.imports, base);
    forall i | 0 <= i < |es|
      ensures Inverse(es[i], EntryAt, PutEntry)
    {
      EntryInverse(es[i]);
    }
    ManyRoundTrip(es, EntryAt, PutEntry, m.globals);
  }
}

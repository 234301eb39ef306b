/** Which functions can reach the longjmp throw: the worklist closure over the direct-call graph
    and its characterisation as the least closed set. */
module CallGraph {
  import opened Bytes
  import opened ModuleTypes
  import opened Opcodes

  /** What the closure looks at: nImp imported functions, the throw's index, and for every
      defined function its direct targets and whether it calls indirectly. */
  datatype Graph = Graph(nImp: nat, seed: nat, outs: seq<(seq<nat>, bool)>)

  ghost predicate Defined(g: Graph, f: nat) {
    g.nImp <= f < g.nImp + |g.outs|
  }

  ghost predicate Calls(g: Graph, f: nat, h: nat) {
    Defined(g, f) && h in g.outs[f - g.nImp].0
  }

  /** f itself contains an indirect call or a call of the throw. */
  ghost predicate Origin(g: Graph, f: nat) {
    Defined(g, f) && (g.outs[f - g.nImp].1 || g.seed in g.outs[f - g.nImp].0)
  }

  /** A path of direct calls. */
  ghost predicate CallPath(g: Graph, p: seq<nat>) {
    |p| > 0 && (|p| > 1 ==> Calls(g, p[0], p[1]) && CallPath(g, p[1..]))
  }

  /** A path that ends in an origin. */
  ghost predicate Chain(g: Graph, p: seq<nat>) {
    CallPath(g, p) && Origin(g, p[|p| - 1])
  }

  ghost predicate Reaches(g: Graph, f: nat) {
    exists p :: Chain(g, p) && p[0] == f
  }

  ghost function AllDefined(g: Graph): set<nat> {
    set f: nat | f < g.nImp + |g.outs| && Defined(g, f)
  }

  ghost function MayLongjmp(g: Graph): set<nat> {
    set f | f in AllDefined(g) && Reaches(g, f)
  }

  ghost predicate Closed(g: Graph, s: set<nat>) {
    && (forall f: nat :: Origin(g, f) ==> f in s)
    && (forall f: nat, h: nat :: Calls(g, f, h) && h in s ==> f in s)
  }

  // ---- The least closed set ----

  lemma OriginReaches(g: Graph, f: nat)
    requires Origin(g, f)
    ensures Reaches(g, f) && f in AllDefined(g)
  {
    assert Chain(g, [f]) && [f][0] == f;
  }

  lemma CallerReaches(g: Graph, f: nat, h: nat)
    requires Calls(g, f, h) && Reaches(g, h)
    ensures Reaches(g, f) && f in AllDefined(g)
  {
    var p :| Chain(g, p) && p[0] == h;
    var q := [f] + p;
    assert q[1..] == p && q[|q| - 1] == p[|p| - 1];
    assert Chain(g, q) && q[0] == f;
  }

  lemma {:induction false} ChainInClosed(g: Graph, p: seq<nat>, s: set<nat>)
    requires Chain(g, p) && Closed(g, s)
    ensures p[0] in s
    decreases |p|
  {
    if |p| > 1 {
      ChainInClosed(g, p[1..], s);
      assert Calls(g, p[0], p[1]);
    }
  }

  /** The set of functions that reach the throw is closed under callers, and every closed set
      contains it. */
  lemma MayLongjmpIsLeast(g: Graph)
    ensures Closed(g, MayLongjmp(g))
    ensures forall s | Closed(g, s) :: MayLongjmp(g) <= s
  {
    forall f: nat | Origin(g, f)
      ensures f in MayLongjmp(g)
    {
      OriginReaches(g, f);
    }
    forall f: nat, h: nat | Calls(g, f, h) && h in MayLongjmp(g)
      ensures f in MayLongjmp(g)
    {
      CallerReaches(g, f, h);
    }
    forall s, f | Closed(g, s) && f in MayLongjmp(g)
      ensures f in s
    {
      var p :| Chain(g, p) && p[0] == f;
      ChainInClosed(g, p, s);
    }
  }

  /** No path of direct calls leads from a function outside the set to the throw, nor to a
      function with an indirect call. */
  lemma {:induction false} OutsideNeverReaches(g: Graph, p: seq<nat>)
    requires CallPath(g, p) && Defined(g, p[0]) && p[0] !in MayLongjmp(g)
    ensures !Origin(g, p[|p| - 1])
    ensures |p| > 1 ==> p[|p| - 1] != g.seed
    decreases |p|
  {
    MayLongjmpIsLeast(g);
    if |p| > 1 {
      assert Calls(g, p[0], p[1]);
      if Defined(g, p[1]) {
        OutsideNeverReaches(g, p[1..]);
      }
    }
  }

  /** A way from p[0] along direct calls, function by function, to one that has an indirect call or a
      call of the throw. */
  predicate Route(g: Graph, p: seq<nat>) {
    && p != []
    && (forall k | 0 <= k < |p| :: g.nImp <= p[k] < g.nImp + |g.outs|)
    && (forall k | 0 <= k < |p| - 1 :: p[k + 1] in g.outs[p[k] - g.nImp].0)
    && var (targets, indirect) := g.outs[p[|p| - 1] - g.nImp];
       indirect || g.seed in targets
  }

  lemma {:induction false} RouteIsChain(g: Graph, p: seq<nat>)
    ensures Route(g, p) <==> Chain(g, p)
    decreases |p|
  {
    if |p| > 1 {
      RouteIsChain(g, p[1..]);
      if Route(g, p) {
        assert p[1] in g.outs[p[0] - g.nImp].0;
        assert Route(g, p[1..]);
      }
      if Chain(g, p) {
        forall k | 0 <= k < |p|
          ensures g.nImp <= p[k] < g.nImp + |g.outs|
          ensures k < |p| - 1 ==> p[k + 1] in g.outs[p[k] - g.nImp].0
        {
          assert k > 0 ==> p[1..][k - 1] == p[k];
        }
      }
    }
  }

  /** The set holds exactly the functions from which there is such a way. */
  lemma MayLongjmpExactly(g: Graph, f: nat)
    ensures f in MayLongjmp(g) <==> exists p :: Route(g, p) && p[0] == f
  {
    if f in MayLongjmp(g) {
      var p :| Chain(g, p) && p[0] == f;
      RouteIsChain(g, p);
    }
    if p :| Route(g, p) && p[0] == f {
      RouteIsChain(g, p);
      assert p[0] >= g.nImp;
    }
  }

  // ---- The computation ----

  function Outs(bodies: seq<seq<byte>>): (r: Option<seq<(seq<nat>, bool)>>)
    ensures r.Some? ==> |r.value| == |bodies|
    ensures r.Some? ==> forall i | 0 <= i < |bodies| :: FuncCalls(bodies[i]) == Some(r.value[i])
  {
    hide FuncCalls;
    if bodies == [] then Some([])
    else
      var init := bodies[..|bodies| - 1];
      match (Outs(init), FuncCalls(bodies[|bodies| - 1]))
      case (Some(os), Some(o)) => Some(os + [o])
      case _ => None
  }

  /** The index the loop over the imports leaves in `seed`: the last function import so named. */
  function SeedIndex(imports: seq<Import>, name: seq<byte>): (r: Option<nat>)
    ensures r.Some? ==> r.value < |FuncImports(imports)| && FuncImports(imports)[r.value].name == name
  {
    if imports == [] then None
    else
      var init, last := imports[..|imports| - 1], imports[|imports| - 1];
      assert imports == init + [last];
      FuncImportsSnoc(init, last);
      if last.desc.FuncImport? && last.name == name then Some(|FuncImports(init)|)
      else SeedIndex(init, name)
  }

  /** The seed is the last function import of that name; there is none exactly if no function import
      has the name. */
  lemma {:induction false} SeedIsLast(imports: seq<Import>, name: seq<byte>)
    ensures var fs, r := FuncImports(imports), SeedIndex(imports, name);
            && (r.Some? ==> r.value < |fs| && fs[r.value].name == name)
            && (forall k | 0 <= k < |fs| && (r.Some? ==> r.value < k) :: fs[k].name != name)
  {
    hide FuncImports;
    if imports == [] {
      EmptySpaces();
    } else {
      var init, last := imports[..|imports| - 1], imports[|imports| - 1];
      assert imports == init + [last];
      SeedIsLast(init, name);
      FuncImportsSnoc(init, last);
    }
  }

  function GraphOf(imports: seq<Import>, bodies: seq<seq<byte>>, seedName: seq<byte>): Option<Graph> {
    match (SeedIndex(imports, seedName), Outs(bodies))
    case (Some(s), Some(os)) => Some(Graph(|FuncImports(imports)|, s, os))
    case _ => None
  }

  method FindSeed(imports: seq<Import>, name: seq<byte>) returns (seed: Option<nat>, n: nat)
    ensures seed == SeedIndex(imports, name) && n == |FuncImports(imports)|
  {
    seed, n := None, 0;
    for i := 0 to |imports|
      invariant seed == SeedIndex(imports[..i], name) && n == |FuncImports(imports[..i])|
    {
      var imp := imports[i];
      assert imports[..i + 1][..i] == imports[..i];
      assert imports[..i + 1] == imports[..i] + [imp];
      FuncImportsSnoc(imports[..i], imp);
      if imp.desc.FuncImport? {
        if imp.name == name {
          seed := Some(n);
        }
        n := n + 1;
      }
    }
    assert imports[..|imports|] == imports;
  }

  function At(m: map<nat, seq<nat>>, h: nat): seq<nat> {
    if h in m then m[h] else []
  }

  lemma AtAppended(m: map<nat, seq<nat>>, target: nat, f: nat, h: nat)
    ensures At(m[target := At(m, target) + [f]], h) == if h == target then At(m, h) + [f] else At(m, h)
  {
  }

  /** m lists, for each target, its callers among the first n defined functions. */
  ghost predicate CallersOf(m: map<nat, seq<nat>>, g: Graph, n: nat) {
    forall f: nat, h: nat :: f in At(m, h) <==> Calls(g, f, h) && f < g.nImp + n
  }

  /** Records the calls of one function in the caller lists. */
  method AddCallers(callers: map<nat, seq<nat>>, calls: seq<nat>, f: nat) returns (m: map<nat, seq<nat>>)
    ensures forall h: nat, k: nat :: k in At(m, h) <==> k in At(callers, h) || (k == f && h in calls)
  {
    m := callers;
    for j := 0 to |calls|
      invariant forall h: nat, k: nat :: k in At(m, h) <==> k in At(callers, h) || (k == f && h in calls[..j])
    {
      assert calls[..j + 1] == calls[..j] + [calls[j]];
      ghost var before, prefix := m, calls[..j];
      m := m[calls[j] := At(m, calls[j]) + [f]];
      forall h: nat, k: nat
        ensures k in At(m, h) <==> k in At(callers, h) || (k == f && h in prefix + [calls[j]])
      {
        AtAppended(before, calls[j], f, h);
      }
    }
    assert calls[..|calls|] == calls;
  }

  method Initial(g: Graph) returns (callers: map<nat, seq<nat>>, s: set<nat>)
    ensures forall f: nat, h: nat :: f in At(callers, h) <==> Calls(g, f, h)
    ensures forall f: nat :: f in s <==> Origin(g, f)
  {
    callers, s := map[], {};
    for i := 0 to |g.outs|
      invariant CallersOf(callers, g, i)
      invariant forall f: nat :: f in s <==> Origin(g, f) && f < g.nImp + i
    {
      var (calls, ind) := g.outs[i];
      var overall := g.nImp + i;
      if ind || g.seed in calls {
        s := s + {overall};
      }
      callers := AddCallers(callers, calls, overall);
    }
  }

  method ToSeq(s: set<nat>) returns (q: seq<nat>)
    ensures forall f :: f in q <==> f in s
  {
    q := [];
    var rest := s;
    while rest != {}
      invariant rest <= s
      invariant forall f :: f in q <==> f in s - rest
      decreases rest
    {
      var f :| f in rest;
      q, rest := q + [f], rest - {f};
    }
  }

  /** Adds the callers of x that are not yet in the set. */
  method PushCallers(g: Graph, cs: seq<nat>, s: set<nat>, work: seq<nat>, ghost x: nat)
    returns (s': set<nat>, work': seq<nat>)
    requires forall f | f in cs :: Calls(g, f, x)
    ensures s <= s' && (forall f | f in cs :: f in s')
    ensures forall f | f in s' :: f in s || f in cs
    ensures forall f | f in s' :: f in s || f in work'
    ensures forall f | f in work :: f in work'
    ensures forall f | f in work' :: f in work || f in s'
    ensures s' == s ==> work' == work
  {
    s', work' := s, work;
    for j := 0 to |cs|
      invariant s <= s' && (forall f | f in cs[..j] :: f in s')
      invariant forall f | f in s' :: f in s || f in cs[..j]
      invariant forall f | f in s' :: f in s || f in work'
      invariant forall f | f in work :: f in work'
      invariant forall f | f in work' :: f in work || f in s'
      invariant s' == s ==> work' == work
    {
      if cs[j] !in s' {
        s', work' := s' + {cs[j]}, work' + [cs[j]];
      }
    }
    assert cs[..|cs|] == cs;
  }

  /** The worklist closure. The order in which members are taken up does not matter: the result
      is the one set the specification names. */
  method Closure(g: Graph) returns (s: set<nat>)
    ensures s == MayLongjmp(g)
  {
    hide Reaches, Origin, Calls, CallPath;
    var callers, start := Initial(g);
    s := start;
    var work := ToSeq(s);
    forall f | f in s
      ensures Reaches(g, f) && f in AllDefined(g)
    {
      OriginReaches(g, f);
    }
    while |work| > 0
      invariant forall f: nat :: Origin(g, f) ==> f in s
      invariant forall f | f in s :: Reaches(g, f) && f in AllDefined(g)
      invariant forall f | f in work :: f in s
      invariant forall f: nat, h: nat :: Calls(g, f, h) && h in s && h !in work ==> f in s
      decreases AllDefined(g) - s, |work|
    {
      var x := work[|work| - 1];
      ghost var s0 := s;
      var rest := work[..|work| - 1];
      assert forall f | f in work :: f == x || f in rest;
      s, work := PushCallers(g, At(callers, x), s, rest, x);
      forall f | f in s
        ensures Reaches(g, f) && f in AllDefined(g)
      {
        if f !in s0 {
          CallerReaches(g, f, x);
        }
      }
      forall f: nat, h: nat | Calls(g, f, h) && h in s && h !in work
        ensures f in s
      {
        if h == x {
          assert f in At(callers, x);
        }
      }
      if s != s0 {
        var n :| n in s && n !in s0;
        assert n in AllDefined(g) - s0;
      }
    }
    assert Closed(g, s);
    MayLongjmpIsLeast(g);
  }

  /** `mayLongjmpSet`: None where the source panics, for a missing seed import or an instruction
      the walker does not know. */
  method MayLongjmpSet(imports: seq<Import>, bodies: seq<seq<byte>>, seedName: seq<byte>)
    returns (r: Option<set<nat>>, seed: nat)
    ensures r.Some? <==> GraphOf(imports, bodies, seedName).Some?
    ensures r.Some? ==> r.value == MayLongjmp(GraphOf(imports, bodies, seedName).value)
    ensures r.Some? ==> seed == GraphOf(imports, bodies, seedName).value.seed
  {
    hide FuncCalls, Outs, SeedIndex, MayLongjmp;
    var found, nImp := FindSeed(imports, seedName);
    if found.None? {
      return None, 0;
    }
    seed := found.value;
    var outs: seq<(seq<nat>, bool)> := [];
    for i := 0 to |bodies|
      invariant |outs| == i && forall j | 0 <= j < i :: FuncCalls(bodies[j]) == Some(outs[j])
    {
      var o := FuncCallsLoop(bodies[i]);
      if o.None? {
        NoOuts(bodies, i);
        return None, seed;
      }
      outs := outs + [o.value];
    }
    OutsAre(bodies, outs);
    var s := Closure(Graph(nImp, seed, outs));
    r := Some(s);
  }

  lemma NoOuts(bodies: seq<seq<byte>>, i: nat)
    requires i < |bodies| && FuncCalls(bodies[i]).None?
    ensures Outs(bodies).None?
  {
    hide FuncCalls;
  }

  lemma {:induction false} OutsAre(bodies: seq<seq<byte>>, outs: seq<(seq<nat>, bool)>)
    requires |outs| == |bodies| && forall j | 0 <= j < |bodies| :: FuncCalls(bodies[j]) == Some(outs[j])
    ensures Outs(bodies) == Some(outs)
    decreases |bodies|
  {
    hide FuncCalls;
    if bodies != [] {
      var n := |bodies| - 1;
      OutsAre(bodies[..n], outs[..n]);
      assert outs[..n] + [outs[n]] == outs;
    }
  }
}

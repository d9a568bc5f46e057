/**
  The test filter, end to end: from the text of a pattern to the tests it leaves enabled.
 */
module Filter {
  import opened CStrings
  import opened Globs
  import opened GlobHeap
  import opened Patterns
  import opened Parser
  import opened Compiler

  /** What the whole engine promises: the tree compiled from a spelled pattern decides the pattern's meaning. */
  lemma MatchDecidesMeaning(p: seq<Item>, pat: Str, s: Str)
    requires Spells(p, pat)
    ensures Matches(Build(p), s) <==> Means(p, s)
  {
    MatchesCorrect(Build(p), s);
    BuildMeans(p, ARRAY_SIZE, s);
  }

  /** The translation unit's global tree. */
  class Engine {
    const h: Heap
    var matchGlob: Cell?

    constructor (h: Heap)
      ensures this.h == h && matchGlob == null
    {
      this.h := h;
      matchGlob := null;
    }

    method CompilePattern(pattern: Str) returns (ok: bool)
      requires !Parse(START, pattern).Undefined?
      modifies this, h
      ensures Answers(h, old(h.live), Parse(START, pattern), matchGlob)
      ensures ok <==> exists p :: Spells(p, pattern)
      ensures ok <==> matchGlob != null
    {
      matchGlob := Compile(h, pattern);
      ParseDecidesGrammar(pattern);
      ok := matchGlob != null;
      if ok {
        assert Spells(Parse(START, pattern).items, pattern);
      }
    }

    method Match(s: Str) returns (ret: bool)
      requires matchGlob != null && Owned(h, matchGlob)
      modifies h
      ensures ret <==> In(matchGlob.tree, s)
      ensures h.live == old(h.live)
    {
      ret := MatchGlob(h, matchGlob, s);
    }

    method FreePattern()
      requires matchGlob != null && Owned(h, matchGlob)
      modifies h
      ensures h.live == old(h.live) - matchGlob.repr
    {
      FreeGlob(h, matchGlob);
    }
  }

  class Test {
    const identifier: Str
    var disabled: bool

    constructor (identifier: Str, disabled: bool)
      ensures this.identifier == identifier && this.disabled == disabled
    {
      this.identifier, this.disabled := identifier, disabled;
    }
  }

  /** A suite without a test set carries no tests here. */
  datatype Suite = Suite(disabled: bool, tests: seq<Test>)

  /** The tests the filter looks at: those of suites that are not disabled. */
  function Considered(suites: seq<Suite>): set<Test> {
    set k, i | 0 <= k < |suites| && !suites[k].disabled && 0 <= i < |suites[k].tests| :: suites[k].tests[i]
  }

  /** Each of the tests is disabled exactly when it was so, or when the pattern does not mean its identifier. */
  twostate predicate Filtered(tests: set<Test>, p: seq<Item>)
    reads tests
  {
    forall t :: t in tests ==> (t.disabled <==> old(t.disabled) || !Means(p, t.identifier))
  }

  method DisableUnmatchingIn(engine: Engine, tests: seq<Test>, ghost p: seq<Item>)
    requires engine.matchGlob != null && Owned(engine.h, engine.matchGlob)
    requires engine.matchGlob.tree == Build(p) && WellFormed(p, ARRAY_SIZE)
    modifies engine.h, (set t | t in tests)
    ensures engine.h.live == old(engine.h.live)
    ensures Filtered((set t | t in tests), p)
  {
    for i := 0 to |tests|
      invariant engine.h.live == old(engine.h.live)
      invariant Filtered((set t | t in tests[..i]), p)
      invariant forall t :: t in tests && t !in tests[..i] ==> t.disabled == old(t.disabled)
    {
      var test := tests[i];
      var ret := engine.Match(test.identifier);
      BuildMeans(p, ARRAY_SIZE, test.identifier);
      assert tests[..i + 1] == tests[..i] + [test];
      if !ret {
        test.disabled := true;
      }
    }
    assert tests[..|tests|] == tests;
  }

  /** A considered test ends up disabled when it was so already, or when its identifier is outside the pattern. */
  method DisableUnmatching(engine: Engine, pattern: Str, suites: seq<Suite>) returns (ok: bool)
    requires !Parse(START, pattern).Undefined?
    modifies engine, engine.h, Considered(suites)
    ensures ok <==> exists p :: Spells(p, pattern)
    ensures engine.h.live == old(engine.h.live)
    ensures forall p :: Spells(p, pattern) ==> Filtered(Considered(suites), p)
    ensures !ok ==> forall t :: t in Considered(suites) ==> t.disabled == old(t.disabled)
  {
    ok := engine.CompilePattern(pattern);
    ParseDecidesGrammar(pattern);
    if !ok {
      return;
    }
    ghost var p := Parse(START, pattern).items;
    ghost var live, repr := engine.h.live, engine.matchGlob.repr;
    assert live - repr == old(engine.h.live);
    for k := 0 to |suites|
      invariant engine.matchGlob != null && Owned(engine.h, engine.matchGlob)
      invariant engine.matchGlob.tree == Build(p) && engine.matchGlob.repr == repr
      invariant engine.h.live == live
      invariant Filtered(Considered(suites[..k]), p)
      invariant forall t :: t in Considered(suites) - Considered(suites[..k]) ==> t.disabled == old(t.disabled)
    {
      ConsideredSnoc(suites, k);
      if !suites[k].disabled {
        DisableUnmatchingIn(engine, suites[k].tests, p);
      }
    }
    assert suites[..|suites|] == suites;
    engine.FreePattern();
  }

  lemma ConsideredSnoc(suites: seq<Suite>, k: nat)
    requires k < |suites|
    ensures Considered(suites[..k]) <= Considered(suites)
    ensures Considered(suites[..k + 1]) ==
            Considered(suites[..k]) + if suites[k].disabled then {} else set t | t in suites[k].tests
    ensures Considered(suites[..k + 1]) <= Considered(suites)
  {
    var a, b := suites[..k], suites[..k + 1];
    assert forall j :: 0 <= j < k ==> a[j] == b[j] == suites[j];
    assert b[k] == suites[k];
    forall t | t in Considered(b)
      ensures t in Considered(a) + if suites[k].disabled then {} else set u | u in suites[k].tests
    {
      var j, i :| 0 <= j < |b| && !b[j].disabled && 0 <= i < |b[j].tests| && t == b[j].tests[i];
      if j < k {
        assert t == a[j].tests[i];
      }
    }
    forall t | t in suites[k].tests && !suites[k].disabled
      ensures t in Considered(b)
    {
      var i :| 0 <= i < |suites[k].tests| && t == suites[k].tests[i];
      assert t == b[k].tests[i];
    }
  }
}

/**
Three readings of a list of where clauses joined by AND and OR: the memory adapter folds
it from the left, the SQLAlchemy adapter nests expressions, and the Mongo adapter sorts the
clauses into an `$and` group and an `$or` group. What a single clause says of a row is
taken as given: verdict number i is the truth of clause i.
*/
module WhereClauses {
  import opened Options

  /** How a clause is joined to what is before it; that of the first clause is ignored. */
  datatype Connector = And | Or

  // ----- the memory adapter: a left fold -----

  function Fold(where: seq<Connector>, verdicts: seq<bool>, n: nat): bool
    requires n <= |where| == |verdicts|
  {
    if n == 0 then true
    else if n == 1 then verdicts[0]
    else if where[n - 1] == And then Fold(where, verdicts, n - 1) && verdicts[n - 1]
    else Fold(where, verdicts, n - 1) || verdicts[n - 1]
  }

  predicate Matches(where: seq<Connector>, verdicts: seq<bool>)
    requires |where| == |verdicts|
  {
    Fold(where, verdicts, |where|)
  }

  method Match(where: seq<Connector>, verdicts: seq<bool>) returns (ok: bool)
    requires |where| == |verdicts|
    ensures ok == Matches(where, verdicts)
  {
    if where == [] { return true; }
    var acc: Option<bool> := None;
    for i := 0 to |where|
      invariant i == 0 <==> acc.None?
      invariant acc.Some? ==> acc.value == Fold(where, verdicts, i)
    {
      if acc.None? {
        acc := Some(verdicts[i]);
      } else if where[i] == And {
        acc := Some(acc.value && verdicts[i]);
      } else {
        acc := Some(acc.value || verdicts[i]);
      }
    }
    ok := acc.value;
  }

  /** A match may start at the first clause or at any OR clause. */
  predicate MayStart(where: seq<Connector>, i: nat)
    requires i < |where|
  {
    i == 0 || where[i] == Or
  }

  /** Clause `i` holds, and so does every AND clause after it among the first `n`. */
  ghost predicate HoldsFrom(where: seq<Connector>, verdicts: seq<bool>, i: nat, n: nat)
    requires i < n <= |where| == |verdicts|
  {
    MayStart(where, i) && verdicts[i] && forall k :: i < k < n && where[k] == And ==> verdicts[k]
  }

  /**
  What the fold means: some starting clause holds, and every AND clause after it. No clauses
  match everything.
  */
  lemma {:induction false} FoldMeans(where: seq<Connector>, verdicts: seq<bool>, n: nat)
    requires n <= |where| == |verdicts|
    ensures Fold(where, verdicts, n) <==> n == 0 || exists i :: 0 <= i < n && HoldsFrom(where, verdicts, i, n)
  {
    if n == 0 {
      assert Fold(where, verdicts, 0);
    } else if n == 1 {
      assert HoldsFrom(where, verdicts, 0, 1) <==> verdicts[0];
    } else {
      FoldMeans(where, verdicts, n - 1);
      if Fold(where, verdicts, n) {
        if Fold(where, verdicts, n - 1) && (where[n - 1] == Or || verdicts[n - 1]) {
          var i :| 0 <= i < n - 1 && HoldsFrom(where, verdicts, i, n - 1);
          assert HoldsFrom(where, verdicts, i, n);
        } else {
          assert HoldsFrom(where, verdicts, n - 1, n);
        }
      }
      if i :| 0 <= i < n && HoldsFrom(where, verdicts, i, n) {
        if i < n - 1 { assert HoldsFrom(where, verdicts, i, n - 1); }
      }
    }
  }

  // ----- the SQLAlchemy adapter: nested expressions -----

  datatype Expression = Clause(index: nat) | Both(left: Expression, right: Expression) | Either(left: Expression, right: Expression)

  predicate Bounded(e: Expression, n: nat) {
    match e
    case Clause(i) => i < n
    case Both(l, r) => Bounded(l, n) && Bounded(r, n)
    case Either(l, r) => Bounded(l, n) && Bounded(r, n)
  }

  predicate Evaluate(e: Expression, verdicts: seq<bool>)
    requires Bounded(e, |verdicts|)
  {
    match e
    case Clause(i) => verdicts[i]
    case Both(l, r) => Evaluate(l, verdicts) && Evaluate(r, verdicts)
    case Either(l, r) => Evaluate(l, verdicts) || Evaluate(r, verdicts)
  }

  /** The nested SQL condition selects exactly the rows the fold matches, whatever the verdicts. */
  method WhereToSql(where: seq<Connector>) returns (expr: Option<Expression>)
    ensures expr.None? <==> where == []
    ensures expr.Some? ==> Bounded(expr.value, |where|)
    ensures expr.Some? ==>
      forall verdicts: seq<bool> | |verdicts| == |where| :: Evaluate(expr.value, verdicts) == Matches(where, verdicts)
  {
    expr := None;
    for i := 0 to |where|
      invariant i == 0 <==> expr.None?
      invariant expr.Some? ==> Bounded(expr.value, |where|)
      invariant expr.Some? ==>
        forall verdicts: seq<bool> | |verdicts| == |where| :: Evaluate(expr.value, verdicts) == Fold(where, verdicts, i)
    {
      if expr.None? {
        expr := Some(Clause(i));
      } else if where[i] == And {
        expr := Some(Both(expr.value, Clause(i)));
      } else {
        expr := Some(Either(expr.value, Clause(i)));
      }
    }
  }

  // ----- the Mongo adapter: two groups -----

  /** A filter document; an empty group is left out of it. */
  datatype Filter = Everything | Bare(index: nat) | Groups(ands: seq<nat>, ors: seq<nat>)

  /** The document a server matches: every group it has must hold. */
  ghost predicate Accepts(f: Filter, verdicts: seq<bool>)
    requires InRange(f, |verdicts|)
  {
    match f
    case Everything => true
    case Bare(i) => verdicts[i]
    case Groups(ands, ors) =>
      && (forall i :: i in ands ==> verdicts[i])
      && (ors != [] ==> exists i :: i in ors && verdicts[i])
  }

  predicate InRange(f: Filter, n: nat) {
    match f
    case Everything => true
    case Bare(i) => i < n
    case Groups(ands, ors) => (forall i :: i in ands ==> i < n) && (forall i :: i in ors ==> i < n)
  }

  predicate IsOr(where: seq<Connector>, i: nat)
    requires i < |where|
  {
    i > 0 && where[i] == Or
  }

  /** The positions below `n` whose clause is OR-connected, or those whose clause is not. */
  function Positions(where: seq<Connector>, n: nat, ors: bool): (r: seq<nat>)
    requires n <= |where|
    ensures forall i :: i in r <==> 0 <= i < n && IsOr(where, i) == ors
  {
    if n == 0 then []
    else Positions(where, n - 1, ors) + if IsOr(where, n - 1) == ors then [n - 1] else []
  }

  function Bson(where: seq<Connector>): (f: Filter)
    ensures InRange(f, |where|)
  {
    if where == [] then Everything
    else if |where| == 1 then Bare(0)
    else Groups(Positions(where, |where|, false), Positions(where, |where|, true))
  }

  method WhereToBson(where: seq<Connector>) returns (f: Filter)
    ensures f == Bson(where)
  {
    if where == [] { return Everything; }
    if |where| == 1 { return Bare(0); }
    var ands, ors: seq<nat> := [], [];
    for i := 0 to |where|
      invariant ands == Positions(where, i, false) && ors == Positions(where, i, true)
    {
      if i == 0 || where[i] == And {
        ands := ands + [i];
      } else {
        ors := ors + [i];
      }
    }
    f := Groups(ands, ors);
  }

  /** What a filter of two groups accepts, by clause instead of by group. */
  lemma {:induction false} AcceptsMeans(where: seq<Connector>, verdicts: seq<bool>)
    requires 2 <= |where| == |verdicts|
    ensures Accepts(Bson(where), verdicts) <==>
      && (forall i :: 0 <= i < |where| && (i == 0 || where[i] == And) ==> verdicts[i])
      && ((exists i :: 0 < i < |where| && where[i] == Or) ==> exists i :: 0 < i < |where| && where[i] == Or && verdicts[i])
  {
    var ands, ors := Positions(where, |where|, false), Positions(where, |where|, true);
    assert ors != [] <==> exists i :: 0 <= i < |where| && IsOr(where, i) by {
      if ors != [] { assert ors[0] in ors; }
    }
  }

  /** Main result: every row the Mongo filter accepts is matched by the fold. */
  lemma {:induction false} MongoIsSound(where: seq<Connector>, verdicts: seq<bool>)
    requires |where| == |verdicts| && Accepts(Bson(where), verdicts)
    ensures Matches(where, verdicts)
  {
    if |where| >= 2 {
      AcceptsMeans(where, verdicts);
      FoldMeans(where, verdicts, |where|);
      assert !IsOr(where, 0);
      assert forall k :: 0 < k < |where| && where[k] == And ==> !IsOr(where, k);
      assert HoldsFrom(where, verdicts, 0, |where|);
    }
  }

  ghost predicate Agree(where: seq<Connector>) {
    forall verdicts: seq<bool> | |verdicts| == |where| :: Accepts(Bson(where), verdicts) == Matches(where, verdicts)
  }

  /**
  Main result: the Mongo filter and the fold agree on every row exactly when no clause
  after the first is OR-connected.
  */
  lemma {:induction false} MongoAgreesExactly(where: seq<Connector>)
    ensures Agree(where) <==> forall i :: 0 <= i < |where| ==> !IsOr(where, i)
  {
    if i :| 0 <= i < |where| && IsOr(where, i) {
      // The clauses from the OR on hold, those before it do not.
      var verdicts := seq(|where|, k => k >= i);
      AcceptsMeans(where, verdicts);
      FoldMeans(where, verdicts, |where|);
      assert HoldsFrom(where, verdicts, i, |where|);
      assert !IsOr(where, 0) && !verdicts[0];
      assert Accepts(Bson(where), verdicts) != Matches(where, verdicts);
    } else {
      forall verdicts: seq<bool> | |verdicts| == |where| ensures Accepts(Bson(where), verdicts) == Matches(where, verdicts) {
        if |where| >= 2 {
          AcceptsMeans(where, verdicts);
          FoldMeans(where, verdicts, |where|);
          if Matches(where, verdicts) {
            var s :| 0 <= s < |where| && HoldsFrom(where, verdicts, s, |where|);
            assert !IsOr(where, s);
            forall k | 0 < k < |where| ensures where[k] == And { assert !IsOr(where, k); }
          } else if Accepts(Bson(where), verdicts) {
            MongoIsSound(where, verdicts);
          }
        }
      }
    }
  }
}

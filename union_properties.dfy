/**
 * What the three union strategies promise. The loops are first proved on any sequence of
 * outcomes; each property is then stated of `ValidateUnion` and the alternatives' own
 * results. First takes the first success or the last error; All needs every alternative
 * and returns the input; Best takes the first success or the earliest error of strictly
 * least score, and never one scored `u32::MAX`.
 */
module UnionProperties {

  import opened Wrappers
  import opened Json
  import opened Errors
  import opened SchemaBase
  import opened Schemas

  // ---- the loops on a sequence of outcomes ----

  lemma {:induction false} FirstOfReachesSuccess(rs: seq<Outcome>, i: nat, last: Option<ValidationError>, k: nat)
    requires i <= k < |rs| && rs[k].Ok?
    requires forall j :: i <= j < k ==> rs[j].Err?
    ensures FirstOf(rs, i, last) == rs[k]
    decreases k - i
  {
    if i < k {
      FirstOfReachesSuccess(rs, i + 1, Some(rs[i].error), k);
    }
  }

  lemma {:induction false} FirstOfAllFail(rs: seq<Outcome>, i: nat, last: Option<ValidationError>)
    requires i <= |rs| && forall j :: 0 <= j < |rs| ==> rs[j].Err?
    ensures i < |rs| ==> FirstOf(rs, i, last) == Err(rs[|rs| - 1].error)
    ensures i == |rs| ==> FirstOf(rs, i, last) == Err(last.GetOr(NoMatch()))
    decreases |rs| - i
  {
    if i < |rs| {
      FirstOfAllFail(rs, i + 1, Some(rs[i].error));
    }
  }

  /** A First success is the outcome of some alternative from index i on. */
  lemma {:induction false} FirstOfWitness(rs: seq<Outcome>, i: nat, last: Option<ValidationError>) returns (k: nat)
    requires i <= |rs| && FirstOf(rs, i, last).Ok?
    ensures i <= k < |rs| && FirstOf(rs, i, last) == rs[k]
    decreases |rs| - i
  {
    if rs[i].Ok? {
      k := i;
    } else {
      k := FirstOfWitness(rs, i + 1, Some(rs[i].error));
    }
  }

  lemma {:induction false} FirstOfSucceeds(rs: seq<Outcome>, i: nat, last: Option<ValidationError>, k: nat)
    requires i <= k < |rs| && rs[k].Ok?
    ensures FirstOf(rs, i, last).Ok?
    decreases k - i
  {
    if i < k && rs[i].Err? {
      FirstOfSucceeds(rs, i + 1, Some(rs[i].error), k);
    }
  }

  lemma {:induction false} AllOfAccepts(rs: seq<Outcome>, v: Value, i: nat)
    requires i <= |rs|
    ensures AllOf(rs, v, i).Ok? <==> forall j :: i <= j < |rs| ==> rs[j].Ok?
    ensures AllOf(rs, v, i).Ok? ==> AllOf(rs, v, i).value == v
    decreases |rs| - i
  {
    if i < |rs| {
      AllOfAccepts(rs, v, i + 1);
    }
  }

  lemma {:induction false} AllOfStopsAt(rs: seq<Outcome>, v: Value, i: nat, k: nat)
    requires i <= k < |rs| && rs[k].Err?
    requires forall j :: i <= j < k ==> rs[j].Ok?
    ensures AllOf(rs, v, i) == Err(rs[k].error)
    decreases k - i
  {
    if i < k {
      AllOfStopsAt(rs, v, i + 1, k);
    }
  }

  lemma {:induction false} BestOfReachesSuccess(rs: seq<Outcome>, score: Scorer, i: nat, bs: u32,
                                                best: Option<ValidationError>, k: nat)
    requires i <= k < |rs| && rs[k].Ok?
    requires forall j :: i <= j < k ==> rs[j].Err?
    ensures BestOf(rs, score, i, bs, best) == rs[k]
    decreases k - i
  {
    if i < k {
      if score(rs[i].error) < bs {
        BestOfReachesSuccess(rs, score, i + 1, score(rs[i].error), Some(rs[i].error), k);
      } else {
        BestOfReachesSuccess(rs, score, i + 1, bs, best, k);
      }
    }
  }

  lemma {:induction false} BestOfSucceeds(rs: seq<Outcome>, score: Scorer, i: nat, bs: u32,
                                          best: Option<ValidationError>, k: nat)
    requires i <= k < |rs| && rs[k].Ok?
    ensures BestOf(rs, score, i, bs, best).Ok?
    decreases k - i
  {
    if i < k && rs[i].Err? {
      if score(rs[i].error) < bs {
        BestOfSucceeds(rs, score, i + 1, score(rs[i].error), Some(rs[i].error), k);
      } else {
        BestOfSucceeds(rs, score, i + 1, bs, best, k);
      }
    }
  }

  /** Once nothing left scores below the recorded best, the recorded error (or none) is the outcome. */
  lemma {:induction false} BestOfKeeps(rs: seq<Outcome>, score: Scorer, i: nat, bs: u32, best: Option<ValidationError>)
    requires i <= |rs| && forall j :: i <= j < |rs| ==> rs[j].Err? && score(rs[j].error) >= bs
    ensures BestOf(rs, score, i, bs, best) == (if best.Some? then Err(best.value) else Err(NoMatch()))
    decreases |rs| - i
  {
    if i < |rs| {
      BestOfKeeps(rs, score, i + 1, bs, best);
    }
  }

  lemma {:induction false} BestOfFinds(rs: seq<Outcome>, score: Scorer, i: nat, bs: u32,
                                       best: Option<ValidationError>, k: nat)
    requires i <= k < |rs| && forall j :: 0 <= j < |rs| ==> rs[j].Err?
    requires score(rs[k].error) < bs
    requires forall j :: i <= j < k ==> score(rs[j].error) > score(rs[k].error)
    requires forall j :: k < j < |rs| ==> score(rs[j].error) >= score(rs[k].error)
    ensures BestOf(rs, score, i, bs, best) == Err(rs[k].error)
    decreases k - i
  {
    if i < k {
      if score(rs[i].error) < bs {
        BestOfFinds(rs, score, i + 1, score(rs[i].error), Some(rs[i].error), k);
      } else {
        BestOfFinds(rs, score, i + 1, bs, best, k);
      }
    } else {
      BestOfKeeps(rs, score, k + 1, score(rs[k].error), Some(rs[k].error));
    }
  }

  /** A Best success is the outcome of some alternative from index i on. */
  lemma {:induction false} BestOfWitness(rs: seq<Outcome>, score: Scorer, i: nat, bs: u32,
                                         best: Option<ValidationError>) returns (k: nat)
    requires i <= |rs| && BestOf(rs, score, i, bs, best).Ok?
    ensures i <= k < |rs| && BestOf(rs, score, i, bs, best) == rs[k]
    decreases |rs| - i
  {
    if rs[i].Ok? {
      k := i;
    } else if score(rs[i].error) < bs {
      k := BestOfWitness(rs, score, i + 1, score(rs[i].error), Some(rs[i].error));
    } else {
      k := BestOfWitness(rs, score, i + 1, bs, best);
    }
  }

  // ---- the strategies ----

  /** Every alternative before index k rejects the value. */
  predicate FailBefore(ext: Externals, u: UnionSchema, v: Value, k: nat)
    requires k <= |u.schemas|
  {
    forall j :: 0 <= j < k ==> Validate(ext, u.schemas[j], v).Err?
  }

  /** First and Best return exactly the first accepting alternative's result; later ones do not matter. */
  lemma FirstSuccessWins(ext: Externals, u: UnionSchema, v: Value, k: nat)
    requires !u.strategy.All?
    requires k < |u.schemas| && Validate(ext, u.schemas[k], v).Ok? && FailBefore(ext, u, v, k)
    ensures ValidateUnion(ext, u, v) == Validate(ext, u.schemas[k], v)
  {
    var rs := Alternatives(ext, u, v);
    if u.strategy.First? {
      FirstOfReachesSuccess(rs, 0, None, k);
    } else {
      BestOfReachesSuccess(rs, u.strategy.score, 0, U32_MAX, None, k);
    }
  }

  /** First with every alternative failing: the last alternative's error; none at all: "union.no_match". */
  lemma FirstAllFailLastError(ext: Externals, u: UnionSchema, v: Value)
    requires u.strategy.First? && FailBefore(ext, u, v, |u.schemas|)
    ensures |u.schemas| > 0 ==> ValidateUnion(ext, u, v) == Err(Validate(ext, u.schemas[|u.schemas| - 1], v).error)
    ensures |u.schemas| == 0 ==> ValidateUnion(ext, u, v) == Err(NoMatch())
  {
    FirstOfAllFail(Alternatives(ext, u, v), 0, None);
  }

  /**
   * All accepts exactly when every alternative accepts the original input (so always on an
   * empty list), and then returns that input, not any alternative's output.
   */
  lemma AllNeedsEvery(ext: Externals, u: UnionSchema, v: Value)
    requires u.strategy.All?
    ensures ValidateUnion(ext, u, v).Ok? <==> forall j :: 0 <= j < |u.schemas| ==> Validate(ext, u.schemas[j], v).Ok?
    ensures ValidateUnion(ext, u, v).Ok? ==> ValidateUnion(ext, u, v).value == v
    ensures u.schemas == [] ==> ValidateUnion(ext, u, v) == Ok(v)
  {
    var rs := Alternatives(ext, u, v);
    assert forall j :: 0 <= j < |rs| ==> rs[j] == Validate(ext, u.schemas[j], v);
    AllOfAccepts(rs, v, 0);
  }

  /** All fails with the first rejecting alternative's error. */
  lemma AllFirstError(ext: Externals, u: UnionSchema, v: Value, k: nat)
    requires u.strategy.All?
    requires k < |u.schemas| && Validate(ext, u.schemas[k], v).Err?
    requires forall j :: 0 <= j < k ==> Validate(ext, u.schemas[j], v).Ok?
    ensures ValidateUnion(ext, u, v) == Err(Validate(ext, u.schemas[k], v).error)
  {
    AllOfStopsAt(Alternatives(ext, u, v), v, 0, k);
  }

  /** The score of the j-th alternative's error. */
  function ScoreAt(ext: Externals, u: UnionSchema, score: Scorer, v: Value, j: nat): u32
    requires j < |u.schemas| && Validate(ext, u.schemas[j], v).Err?
  {
    score(Validate(ext, u.schemas[j], v).error)
  }

  /**
   * Best with every alternative failing returns the error of least score; on a tie the
   * earliest such error, because only a strictly smaller score replaces the recorded one.
   */
  lemma BestEarliestLeastScore(ext: Externals, u: UnionSchema, v: Value, k: nat)
    requires u.strategy.Best? && FailBefore(ext, u, v, |u.schemas|) && k < |u.schemas|
    requires ScoreAt(ext, u, u.strategy.score, v, k) < U32_MAX
    requires forall j :: 0 <= j < k ==> ScoreAt(ext, u, u.strategy.score, v, j) > ScoreAt(ext, u, u.strategy.score, v, k)
    requires forall j :: k < j < |u.schemas| ==>
               ScoreAt(ext, u, u.strategy.score, v, j) >= ScoreAt(ext, u, u.strategy.score, v, k)
    ensures ValidateUnion(ext, u, v) == Err(Validate(ext, u.schemas[k], v).error)
  {
    var rs := Alternatives(ext, u, v);
    forall j | 0 <= j < |rs|
      ensures rs[j] == Validate(ext, u.schemas[j], v) && rs[j].Err?
      ensures u.strategy.score(rs[j].error) == ScoreAt(ext, u, u.strategy.score, v, j)
    {
    }
    BestOfFinds(rs, u.strategy.score, 0, U32_MAX, None, k);
  }

  /** An error scored `u32::MAX` is never recorded: if all score so, or there is no alternative, "union.no_match". */
  lemma BestAllMaxNoMatch(ext: Externals, u: UnionSchema, v: Value)
    requires u.strategy.Best? && FailBefore(ext, u, v, |u.schemas|)
    requires forall j :: 0 <= j < |u.schemas| ==> ScoreAt(ext, u, u.strategy.score, v, j) == U32_MAX
    ensures ValidateUnion(ext, u, v) == Err(NoMatch())
  {
    var rs := Alternatives(ext, u, v);
    forall j | 0 <= j < |rs|
      ensures rs[j] == Validate(ext, u.schemas[j], v) && rs[j].Err?
      ensures u.strategy.score(rs[j].error) == ScoreAt(ext, u, u.strategy.score, v, j)
    {
    }
    BestOfKeeps(rs, u.strategy.score, 0, U32_MAX, None);
  }

  /** A First or Best success is the success of one of the alternatives. */
  lemma SuccessIsAnAlternative(ext: Externals, u: UnionSchema, v: Value) returns (k: nat)
    requires !u.strategy.All? && ValidateUnion(ext, u, v).Ok?
    ensures k < |u.schemas| && ValidateUnion(ext, u, v) == Validate(ext, u.schemas[k], v)
  {
    var rs := Alternatives(ext, u, v);
    if u.strategy.First? {
      k := FirstOfWitness(rs, 0, None);
    } else {
      k := BestOfWitness(rs, u.strategy.score, 0, U32_MAX, None);
    }
  }

  /** Conversely, First and Best accept as soon as any one alternative accepts. */
  lemma AnAlternativeSuffices(ext: Externals, u: UnionSchema, v: Value, k: nat)
    requires !u.strategy.All? && k < |u.schemas| && Validate(ext, u.schemas[k], v).Ok?
    ensures ValidateUnion(ext, u, v).Ok?
  {
    var rs := Alternatives(ext, u, v);
    if u.strategy.First? {
      FirstOfSucceeds(rs, 0, None, k);
    } else {
      BestOfSucceeds(rs, u.strategy.score, 0, U32_MAX, None, k);
    }
  }
}

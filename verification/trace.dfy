/** Sequences of contract calls and what they can reach from deployment: the week
    counter counts the openings, the history lists the draws in order, and openings and
    closings alternate. */
module Trace {

  import opened Wrappers
  import opened Primitives
  import opened Lotto
  import opened Game

  /** One call to the contract. */
  datatype Action =
    | StartWeekAt(now: U64)
    | EndWeekAt(now: U64, winningNums: LottoNumbers)
    | PlayAt(pubkey: PublicKey, signature: Signature, week: Field, lottoEntry: LottoNumbers)

  function Step(c: Crypto, g: GameState, a: Action): Option<GameState>
  {
    match a
    case StartWeekAt(now) => StartWeek(g, now)
    case EndWeekAt(now, winningNums) => EndWeek(c, g, now, winningNums)
    case PlayAt(pubkey, signature, week, lottoEntry) => Play(c, g, pubkey, signature, week, lottoEntry)
  }

  /** The calls applied in order, as long as each is accepted: `Some` is the state after
      a sequence in which every call passed its assertions, `None` says some call was
      rejected. (On the chain a rejected call only leaves the state as it was; these
      sequences are the accepted histories.) */
  function Run(c: Crypto, g: GameState, actions: seq<Action>): Option<GameState>
    decreases |actions|
  {
    if |actions| == 0 then Some(g)
    else
      match Step(c, g, actions[0])
      case None => None
      case Some(next) => Run(c, next, actions[1..])
  }

  /** The number of openings among the calls. */
  function Starts(actions: seq<Action>): nat
    decreases |actions|
  {
    if |actions| == 0 then 0
    else (if actions[0].StartWeekAt? then 1 else 0) + Starts(actions[1..])
  }

  /** The winning draws of the closings among the calls, in call order. */
  function Draws(actions: seq<Action>): seq<LottoNumbers>
    decreases |actions|
  {
    if |actions| == 0 then []
    else (if actions[0].EndWeekAt? then [actions[0].winningNums] else []) + Draws(actions[1..])
  }

  /** One accepted call keeps the invariant, advances the week by one exactly when it
      opens a week, and appends its draw to the history exactly when it closes one. */
  lemma StepAccounting(c: Crypto, g: GameState, a: Action)
    requires Invariant(c, g)
    requires Step(c, g, a).Some?
    ensures Invariant(c, Step(c, g, a).value)
    ensures Step(c, g, a).value.week == g.week + (if a.StartWeekAt? then 1 else 0)
    ensures Step(c, g, a).value.winHistory
         == g.winHistory + (if a.EndWeekAt? then [a.winningNums] else [])
  {
    match a {
      case StartWeekAt(now) =>
        StartWeekPreservesInvariant(c, g, now);
      case EndWeekAt(now, winningNums) =>
        EndWeekPreservesInvariant(c, g, now, winningNums);
      case PlayAt(_, _, _, _) =>
        assert g.winHistory + [] == g.winHistory;
    }
  }

  /** An accepted sequence of calls keeps the invariant, advances the week by the
      number of openings and appends exactly its draws to the history. */
  lemma {:induction false} RunAccounting(c: Crypto, g: GameState, actions: seq<Action>)
    requires Invariant(c, g)
    requires Run(c, g, actions).Some?
    ensures Invariant(c, Run(c, g, actions).value)
    ensures Run(c, g, actions).value.week == g.week + Starts(actions)
    ensures Run(c, g, actions).value.winHistory == g.winHistory + Draws(actions)
    decreases |actions|
  {
    if |actions| > 0 {
      var a := actions[0];
      var next := Step(c, g, a).value;
      StepAccounting(c, g, a);
      RunAccounting(c, next, actions[1..]);
      assert g.winHistory + Draws(actions)
          == (g.winHistory + (if a.EndWeekAt? then [a.winningNums] else [])) + Draws(actions[1..]);
    } else {
      assert g.winHistory + Draws(actions) == g.winHistory;
    }
  }

  /** From deployment, an accepted sequence of calls numbers the weeks by its openings,
      records one draw per closing, the i-th draw for week i + 1, and its openings and
      closings alternate: there are as many closings as openings when no week is open,
      and one fewer while a week is open. */
  lemma FromDeployment(c: Crypto, deployedAt: U64, actions: seq<Action>)
    requires Run(c, Init(c, deployedAt), actions).Some?
    ensures var g := Run(c, Init(c, deployedAt), actions).value;
            && g.week == Starts(actions)
            && g.winHistory == Draws(actions)
            && (forall i :: 0 <= i < |Draws(actions)| ==> Draws(actions)[i].gmWeek == i + 1)
            && (g.done ==> |Draws(actions)| == Starts(actions))
            && (!g.done ==> |Draws(actions)| + 1 == Starts(actions))
  {
    RunAccounting(c, Init(c, deployedAt), actions);
  }

  /** A fact about `Run`: a sequence containing a rejected call is not an accepted
      history. */
  lemma {:induction false} FailedCallAbortsRun(c: Crypto, g: GameState, actions: seq<Action>, i: nat)
    requires i < |actions|
    requires Run(c, g, actions[..i]).Some?
    requires Step(c, Run(c, g, actions[..i]).value, actions[i]) == None
    ensures Run(c, g, actions) == None
    decreases i
  {
    if i > 0 {
      assert actions[..i][0] == actions[0];
      assert actions[..i][1..] == actions[1..][..i - 1];
      FailedCallAbortsRun(c, Step(c, g, actions[0]).value, actions[1..], i - 1);
    }
  }

}

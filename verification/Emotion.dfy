/** The emotion machine and what its runs can reach. */
module Emotion {

  datatype Mood = Focused | Excited | Greedy | Cautious | Panicking | Numb

  datatype Event =
    | Win
    | Loss(pct: real)
    | Idle
    | Drawdown(pct: real)
    | CalmBamboo
    | Other

  datatype Context = Context(current: Mood, winStreak: nat, lossStreak: nat, idleCount: nat, talent: int)

  /** The talent of the quiet bamboo heart: never panics. */
  const BAMBOO_HEART := 1

  function HandleWin(ctx: Context): Mood {
    if ctx.current == Excited && ctx.winStreak >= 5 then Greedy
    else if ctx.current == Focused && ctx.winStreak >= 3 then Excited
    else if ctx.current == Excited && ctx.lossStreak >= 2 then Focused
    else ctx.current
  }

  function HandleLoss(ctx: Context, pct: real): Mood {
    if ctx.talent == BAMBOO_HEART then (if pct > 0.05 then Cautious else ctx.current)
    else if pct > 0.05 && ctx.current == Focused then Cautious
    else if ctx.current == Excited || ctx.current == Greedy then Focused
    else ctx.current
  }

  function HandleIdle(ctx: Context): Mood {
    if ctx.current == Panicking && ctx.idleCount >= 10 then Numb else ctx.current
  }

  function HandleDrawdown(ctx: Context, pct: real): Mood {
    if ctx.talent == BAMBOO_HEART then Cautious
    else if pct > 0.10 && ctx.current == Cautious then Panicking
    else ctx.current
  }

  function Next(ctx: Context, e: Event): Context {
    match e
    case CalmBamboo => ctx.(current := Focused)
    case Win =>
      var won := ctx.(winStreak := ctx.winStreak + 1, lossStreak := 0, idleCount := 0);
      won.(current := HandleWin(won))
    case Loss(pct) =>
      var lost := ctx.(lossStreak := ctx.lossStreak + 1, winStreak := 0);
      lost.(current := HandleLoss(lost, pct))
    case Idle =>
      var idle := ctx.(idleCount := ctx.idleCount + 1);
      idle.(current := HandleIdle(idle))
    case Drawdown(pct) => ctx.(current := HandleDrawdown(ctx, pct))
    case Other => ctx
  }

  function Run(ctx: Context, events: seq<Event>): Context {
    if events == [] then ctx else Next(Run(ctx, events[..|events| - 1]), events[|events| - 1])
  }

  /** Hydration restores the mood and the talent; the counts start from zero. */
  function Stored(mood: Mood, talent: int): Context { Context(mood, 0, 0, 0, talent) }

  function Fresh(talent: int): Context { Stored(Focused, talent) }

  function ActorIdle(ctx: Context): Context {
    Next(ctx.(idleCount := ctx.idleCount + 1), Idle)
  }

  /** The caller's mutable context, and transition on it. */
  class EmotionContext {
    var current: Mood
    var winStreak: nat
    var lossStreak: nat
    var idleCount: nat
    var talent: int

    function View(): Context
      reads this
    {
      Context(current, winStreak, lossStreak, idleCount, talent)
    }

    constructor (mood: Mood, talent: int)
      ensures View() == Stored(mood, talent)
    {
      current, winStreak, lossStreak, idleCount := mood, 0, 0, 0;
      this.talent := talent;
    }

    method Transition(e: Event) returns (mood: Mood)
      modifies this
      ensures View() == Next(old(View()), e) && mood == current
    {
      match e {
        case CalmBamboo =>
          current := Focused;
        case Win =>
          winStreak := winStreak + 1;
          lossStreak := 0;
          idleCount := 0;
          current := HandleWin(View());
        case Loss(pct) =>
          lossStreak := lossStreak + 1;
          winStreak := 0;
          current := HandleLoss(View(), pct);
        case Idle =>
          idleCount := idleCount + 1;
          current := HandleIdle(View());
        case Drawdown(pct) =>
          current := HandleDrawdown(View(), pct);
        case Other =>
      }
      mood := current;
    }

    /** The actor counts an idle decision itself before it reports it. */
    method ReportIdle() returns (mood: Mood)
      modifies this
      ensures View() == ActorIdle(old(View())) && mood == current
    {
      idleCount := idleCount + 1;
      mood := Transition(Idle);
    }
  }

  // ---- Every run ----

  /** How deep into fear a mood is. */
  function Fear(m: Mood): nat {
    match m
    case Cautious => 1
    case Panicking => 2
    case Numb => 3
    case _ => 0
  }

  ghost predicate Sound(ctx: Context) {
    && (ctx.winStreak == 0 || ctx.lossStreak == 0)
    && (ctx.talent != BAMBOO_HEART ==>
          && (ctx.current == Excited ==> ctx.winStreak >= 3)
          && (ctx.current == Greedy ==> ctx.winStreak >= 5))
    && (ctx.talent == BAMBOO_HEART ==> ctx.current != Panicking && ctx.current != Numb)
  }

  /** From focused, whatever happens: streaks exclude one another; without the bamboo
      heart, excitement stands on three wins in a row and greed on five; with it, panic
      and numbness are out of reach. */
  lemma {:induction false} RunsAreSound(talent: int, events: seq<Event>)
    ensures Sound(Run(Fresh(talent), events)) && Run(Fresh(talent), events).talent == talent
  {
    if events != [] {
      RunsAreSound(talent, events[..|events| - 1]);
    }
  }

  predicate BigLoss(e: Event) { e.Loss? && e.pct > 0.05 }

  predicate LossFree(events: seq<Event>) {
    forall i :: 0 <= i < |events| ==> !events[i].Loss? && !events[i].CalmBamboo?
  }

  predicate Untroubled(events: seq<Event>) {
    forall i :: 0 <= i < |events| ==> !BigLoss(events[i]) && !events[i].Drawdown? && !events[i].CalmBamboo?
  }

  /** What survives of that from any stored mood.  The streaks exclude one another.  Without
      the bamboo heart, excitement and greed that no streak explains are the stored mood's
      own, and no loss came since.  With it, panic and numbness can only be left from a stored
      panic or numbness, while neither a large loss nor a drawdown came. */
  lemma {:induction false} StoredRunsAreSound(mood: Mood, talent: int, events: seq<Event>)
    ensures var ctx := Run(Stored(mood, talent), events);
            && ctx.talent == talent && (ctx.winStreak == 0 || ctx.lossStreak == 0)
            && (talent != BAMBOO_HEART ==>
                  && (ctx.current == Excited && ctx.winStreak < 3 ==> mood == Excited && LossFree(events))
                  && (ctx.current == Greedy && ctx.winStreak < 5 ==> mood == Greedy && LossFree(events)))
            && (talent == BAMBOO_HEART && Fear(ctx.current) >= 2 ==> Fear(mood) >= 2 && Untroubled(events))
  {
    if events != [] {
      StoredRunsAreSound(mood, talent, events[..|events| - 1]);
    }
  }

  /** The idle events since the last win. */
  function IdlesSinceWin(events: seq<Event>): nat {
    if events == [] || events[|events| - 1].Win? then 0
    else IdlesSinceWin(events[..|events| - 1]) + if events[|events| - 1].Idle? then 1 else 0
  }

  /** From a hydration on the idle count is that of the idle events since the last win: no
      loss, no drawdown and no calming item ends it. */
  lemma {:induction false} IdlesCountSinceWin(mood: Mood, talent: int, events: seq<Event>)
    ensures Run(Stored(mood, talent), events).idleCount == IdlesSinceWin(events)
  {
    if events != [] {
      IdlesCountSinceWin(mood, talent, events[..|events| - 1]);
    }
  }

  /** A bamboo heart is made cautious by any drawdown and by a loss of more than 5%, from any
      mood; a smaller loss leaves it as it is. */
  lemma {:induction false} BambooHearts(ctx: Context, pct: real)
    requires ctx.talent == BAMBOO_HEART
    ensures Next(ctx, Drawdown(pct)).current == Cautious
    ensures Next(ctx, Loss(pct)).current == if pct > 0.05 then Cautious else ctx.current
  {
  }

  /** Without the bamboo heart and the calming item, fear never lessens. */
  lemma {:induction false} FearNeverLessens(ctx: Context, events: seq<Event>)
    requires ctx.talent != BAMBOO_HEART
    requires forall i :: 0 <= i < |events| ==> events[i] != CalmBamboo
    ensures Run(ctx, events).talent == ctx.talent && Fear(Run(ctx, events).current) >= Fear(ctx.current)
  {
    if events != [] {
      FearNeverLessens(ctx, events[..|events| - 1]);
    }
  }

  lemma {:induction false} RunNext(ctx: Context, events: seq<Event>, e: Event)
    ensures Run(ctx, events + [e]) == Next(Run(ctx, events), e)
  {
    hide Next;
    assert (events + [e])[..|events|] == events;
  }

  /** The calming item ends focused from every mood and after every history, and leaves the
      counts: the wins of a streak still count towards excitement. */
  lemma {:induction false} CalmBambooFocuses(ctx: Context, events: seq<Event>)
    ensures var (before, after) := (Run(ctx, events), Run(ctx, events + [CalmBamboo]));
            && after.current == Focused && after.talent == before.talent
            && (after.winStreak, after.lossStreak, after.idleCount) == (before.winStreak, before.lossStreak, before.idleCount)
  {
    RunNext(ctx, events, CalmBamboo);
    hide Run;
  }

  /** A win ends no excitement: the branch that would calm an excited panda after two
      losses is never taken, since a win has just reset the losses. */
  lemma {:induction false} WinsNeverCalm(ctx: Context)
    ensures Next(ctx, Win).current == Focused <==> ctx.current == Focused && ctx.winStreak < 2
  {
  }

  function ActorIdles(ctx: Context, n: nat): Context {
    if n == 0 then ctx else ActorIdle(ActorIdles(ctx, n - 1))
  }

  /** Each idle decision of the actor counts twice: a panicking panda is numb after n of
      them exactly when its count and twice n reach ten, so after five from zero. */
  lemma {:induction false} IdleCountsTwice(ctx: Context, n: nat)
    requires ctx.current == Panicking && n > 0
    ensures ActorIdles(ctx, n).idleCount == ctx.idleCount + 2 * n
    ensures ActorIdles(ctx, n).current == (if ctx.idleCount + 2 * n >= 10 then Numb else Panicking)
  {
    if n > 1 {
      IdleCountsTwice(ctx, n - 1);
    }
  }

  // ---- What it takes to be afraid ----

  function IdlesIn(events: seq<Event>): nat {
    if events == [] then 0 else IdlesIn(events[..|events| - 1]) + if events[|events| - 1].Idle? then 1 else 0
  }

  ghost predicate HadLoss(events: seq<Event>) {
    exists i :: 0 <= i < |events| && BigLoss(events[i])
  }

  predicate BigDrawdown(e: Event) { e.Drawdown? && e.pct > 0.10 }

  ghost predicate HadLossThenDrawdown(events: seq<Event>) {
    exists i, j :: 0 <= i < j < |events| && BigLoss(events[i]) && BigDrawdown(events[j])
  }

  lemma {:induction false} MoreEvents(events: seq<Event>, e: Event)
    ensures HadLoss(events) || BigLoss(e) ==> HadLoss(events + [e])
    ensures HadLossThenDrawdown(events) || (HadLoss(events) && BigDrawdown(e)) ==> HadLossThenDrawdown(events + [e])
  {
    hide BigLoss, BigDrawdown;
    var longer := events + [e];
    assert longer[|events|] == e && forall k :: 0 <= k < |events| ==> longer[k] == events[k];
  }

  /** Without the bamboo heart, fear has its reasons in the past: caution a loss of more
      than 5%, panic a drawdown of more than 10% after such a loss, and numbness at least
      ten idle events as well. */
  lemma {:induction false} FearHasReasons(talent: int, events: seq<Event>)
    requires talent != BAMBOO_HEART
    ensures var ctx := Run(Fresh(talent), events);
            && ctx.talent == talent && ctx.idleCount <= IdlesIn(events)
            && (Fear(ctx.current) >= 1 ==> HadLoss(events))
            && (Fear(ctx.current) >= 2 ==> HadLossThenDrawdown(events))
            && (Fear(ctx.current) == 3 ==> IdlesIn(events) >= 10)
  {
    if events != [] {
      var front, e := events[..|events| - 1], events[|events| - 1];
      FearHasReasons(talent, front);
      MoreEvents(front, e);
      assert front + [e] == events;
      hide HadLoss, HadLossThenDrawdown;
    }
  }

  function Wins(n: nat): seq<Event> {
    if n == 0 then [] else Wins(n - 1) + [Win]
  }

  function MoodOfWins(n: nat): Mood {
    if n >= 5 then Greedy else if n >= 3 then Excited else Focused
  }

  lemma {:induction false} OneMoreWin(ctx: Context, n: nat)
    requires ctx.winStreak == n && ctx.current == MoodOfWins(n)
    ensures Next(ctx, Win).winStreak == n + 1 && Next(ctx, Win).current == MoodOfWins(n + 1)
  {
  }

  /** Wins alone excite at the third and make greedy at the fifth, whatever the talent. */
  lemma {:induction false} WinsAlone(talent: int, n: nat)
    ensures Run(Fresh(talent), Wins(n)).winStreak == n && Run(Fresh(talent), Wins(n)).current == MoodOfWins(n)
  {
    hide Next;
    if n > 0 {
      WinsAlone(talent, n - 1);
      RunNext(Fresh(talent), Wins(n - 1), Win);
      OneMoreWin(Run(Fresh(talent), Wins(n - 1)), n - 1);
      hide Run, MoodOfWins;
    }
  }

  function Idles(n: nat): seq<Event> {
    if n == 0 then [] else Idles(n - 1) + [Idle]
  }

  /** The shortest way down, and how far each part of it goes. */
  lemma {:induction false} WayDown(talent: int, loss: real, drawdown: real, n: nat)
    requires talent != BAMBOO_HEART
    ensures var ctx := Run(Fresh(talent), [Loss(loss), Drawdown(drawdown)] + Idles(n));
            && ctx.idleCount == n && ctx.talent == talent
            && ctx.current ==
                 if loss <= 0.05 then Focused
                 else if drawdown <= 0.10 then Cautious
                 else if n < 10 then Panicking
                 else Numb
  {
    var start: seq<Event> := [Loss(loss), Drawdown(drawdown)];
    if n == 0 {
      var one: seq<Event> := [Loss(loss)];
      assert start + Idles(0) == start && start[..1] == one && one[..0] == [];
      assert Run(Fresh(talent), one) == Next(Fresh(talent), Loss(loss));
      assert Run(Fresh(talent), start) == Next(Run(Fresh(talent), one), Drawdown(drawdown));
    } else {
      WayDown(talent, loss, drawdown, n - 1);
      assert start + Idles(n) == start + Idles(n - 1) + [Idle];
      RunNext(Fresh(talent), start + Idles(n - 1), Idle);
      hide Run, Idles, HandleLoss, HandleWin, HandleDrawdown;
    }
  }
}

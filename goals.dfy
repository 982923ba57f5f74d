/** The daily goals widget: a list of goals for the day, one of which follows
    the number of completed focus sessions, an overall completion percentage,
    and a greeting chosen by the hour.

    The list is rebuilt as a whole on every change (a `map` over it, or a copy
    with one goal appended); here each rebuild is a function on sequences, and
    the class `DailyProgress` holds the list and the text being typed, its
    methods replacing them as the widget does. The clock (`Date.now()` ids and
    the current hour) comes in as parameters. */
module Goals {
  import opened Strings

  datatype Goal = Goal(id: int, text: string, completed: bool, target: int, current: int)

  /** The goals a day starts with: ids 1, 2 and 3, none completed; goal 1
      asks for four focus sessions and starts at the given count, the other
      two ask for one step each. */
  function InitialGoals(completedSessions: int): (gs: seq<Goal>)
    ensures |gs| == 3 && gs[0].id == 1 && gs[1].id == 2 && gs[2].id == 3
    ensures gs[0].target == 4 && gs[1].target == 1 && gs[2].target == 1
    ensures gs[0].current == completedSessions && gs[1].current == 0 && gs[2].current == 0
    ensures forall i :: 0 <= i < |gs| ==> !gs[i].completed
  {
    [ Goal(1, "Complete 4 focus sessions", false, 4, completedSessions),
      Goal(2, "Review project notes", false, 1, 0),
      Goal(3, "Plan tomorrow's tasks", false, 1, 0) ]
  }

  // ---------------------------------------------------------------------
  // Following the session count

  function SyncGoal(g: Goal, completedSessions: int): Goal {
    if g.id == 1 then g.(current := completedSessions, completed := completedSessions >= g.target) else g
  }

  /** The session-count effect: every goal with id 1 takes the count as its
      progress and is completed exactly when the count reaches its target;
      every other goal, the length and the order stay as they were. */
  function SyncGoals(gs: seq<Goal>, completedSessions: int): (r: seq<Goal>)
    ensures |r| == |gs|
    ensures forall i :: 0 <= i < |gs| ==>
      r[i].id == gs[i].id && r[i].text == gs[i].text && r[i].target == gs[i].target
    ensures forall i :: 0 <= i < |gs| && gs[i].id == 1 ==>
      r[i].current == completedSessions && r[i].completed == (completedSessions >= gs[i].target)
    ensures forall i :: 0 <= i < |gs| && gs[i].id != 1 ==> r[i] == gs[i]
  {
    if gs == [] then [] else [SyncGoal(gs[0], completedSessions)] + SyncGoals(gs[1..], completedSessions)
  }

  /** Running the effect again with the same count changes nothing. */
  lemma SyncGoalsIdempotent(gs: seq<Goal>, completedSessions: int)
    ensures SyncGoals(SyncGoals(gs, completedSessions), completedSessions) == SyncGoals(gs, completedSessions)
  {
  }

  // ---------------------------------------------------------------------
  // Toggling a goal

  function FlipIfId(g: Goal, id: int): Goal {
    if g.id == id then g.(completed := !g.completed) else g
  }

  /** `toggleGoal(id)`: the goals with that id change their completed flag,
      and nothing else changes. */
  function ToggleGoals(gs: seq<Goal>, id: int): (r: seq<Goal>)
    ensures |r| == |gs|
    ensures forall i :: 0 <= i < |gs| ==>
      r[i].completed == (gs[i].completed != (gs[i].id == id))
      && r[i].(completed := gs[i].completed) == gs[i]
  {
    if gs == [] then [] else [FlipIfId(gs[0], id)] + ToggleGoals(gs[1..], id)
  }

  /** Toggling the same goal twice restores the list. */
  lemma ToggleGoalsTwice(gs: seq<Goal>, id: int)
    ensures ToggleGoals(ToggleGoals(gs, id), id) == gs
  {
  }

  // ---------------------------------------------------------------------
  // Overall progress

  /** `goals.filter(goal => goal.completed)`. */
  function CompletedGoals(gs: seq<Goal>): (r: seq<Goal>)
    ensures |r| <= |gs|
    ensures forall g :: g in r <==> g in gs && g.completed
  {
    if gs == [] then []
    else (if gs[0].completed then [gs[0]] else []) + CompletedGoals(gs[1..])
  }

  /** The filter works piece by piece: the completed goals of `a + b` are
      those of `a` followed by those of `b`. With the one-goal case this fixes
      the filter's result, order and count included. */
  lemma {:induction false} CompletedGoalsSplit(a: seq<Goal>, b: seq<Goal>)
    ensures CompletedGoals(a + b) == CompletedGoals(a) + CompletedGoals(b)
  {
    if a == [] {
      assert a + b == b;
    } else {
      assert (a + b)[1..] == a[1..] + b;
      CompletedGoalsSplit(a[1..], b);
    }
  }

  /** The filter keeps a single goal exactly when it is completed. */
  lemma CompletedGoalsOne(g: Goal)
    ensures CompletedGoals([g]) == if g.completed then [g] else []
  {
    assert [g][1..] == [];
  }

  /** Every goal is kept by the filter exactly when every goal is completed. */
  lemma {:induction false} AllKeptIffAllCompleted(gs: seq<Goal>)
    ensures |CompletedGoals(gs)| == |gs| <==> forall i :: 0 <= i < |gs| ==> gs[i].completed
  {
    if gs != [] {
      AllKeptIffAllCompleted(gs[1..]);
      assert forall i :: 1 <= i < |gs| ==> gs[i] == gs[1..][i - 1];
    }
  }

  /** The share of completed goals, in percent; 0 for an empty list. */
  function TodayProgress(gs: seq<Goal>): (p: real)
    ensures 0.0 <= p <= 100.0
    ensures gs == [] ==> p == 0.0
  {
    if |gs| > 0 then
      var c, n := |CompletedGoals(gs)| as real, |gs| as real;
      assert 0.0 <= c / n <= 1.0 by {
        assert c <= n;
      }
      c / n * 100.0
    else 0.0
  }

  /** The percentage `c / n * 100` is 100 exactly when `c == n` and 0
      exactly when `c == 0`. */
  lemma PercentEnds(c: real, n: real)
    requires n > 0.0
    ensures c / n * 100.0 == 100.0 <==> c == n
    ensures c / n * 100.0 == 0.0 <==> c == 0.0
  {
  }

  /** A non-empty list is at 100 percent exactly when all its goals are completed. */
  lemma FullProgressIffAllCompleted(gs: seq<Goal>)
    requires gs != []
    ensures TodayProgress(gs) == 100.0 <==> forall i :: 0 <= i < |gs| ==> gs[i].completed
  {
    AllKeptIffAllCompleted(gs);
    PercentEnds(|CompletedGoals(gs)| as real, |gs| as real);
  }

  /** The list is at 0 percent exactly when no goal in it is completed. */
  lemma ZeroProgressIffNoneCompleted(gs: seq<Goal>)
    ensures TodayProgress(gs) == 0.0 <==> forall i :: 0 <= i < |gs| ==> !gs[i].completed
  {
    if gs != [] {
      PercentEnds(|CompletedGoals(gs)| as real, |gs| as real);
      if CompletedGoals(gs) != [] {
        assert CompletedGoals(gs)[0] in CompletedGoals(gs);
      }
    }
  }

  /** A fresh list is at 0 percent; once goal 1 has followed a count of at
      least four sessions it is completed, a third of the day. */
  lemma SessionGoalProgress(completedSessions: int)
    ensures TodayProgress(InitialGoals(completedSessions)) == 0.0
    ensures completedSessions >= 4 ==>
      SyncGoals(InitialGoals(completedSessions), completedSessions)[0].completed
      && TodayProgress(SyncGoals(InitialGoals(completedSessions), completedSessions)) == 100.0 / 3.0
  {
    ZeroProgressIffNoneCompleted(InitialGoals(completedSessions));
    var gs := SyncGoals(InitialGoals(completedSessions), completedSessions);
    if completedSessions >= 4 {
      assert gs[1..][1..][1..] == [];
      assert CompletedGoals(gs[1..][1..]) == [];
      assert CompletedGoals(gs[1..]) == [];
      assert CompletedGoals(gs) == [gs[0]];
    }
  }

  // ---------------------------------------------------------------------
  // Greeting

  /** `getGreeting`: morning before noon, afternoon until five, evening after. */
  function Greeting(hour: int): (r: string)
    ensures r == "Good morning" <==> hour < 12
    ensures r == "Good afternoon" <==> 12 <= hour < 17
    ensures r == "Good evening" <==> 17 <= hour
  {
    if hour < 12 then "Good morning"
    else if hour < 17 then "Good afternoon"
    else "Good evening"
  }

  // ---------------------------------------------------------------------
  // The widget

  class DailyProgress {
    var dailyGoals: seq<Goal>
    var newGoal: string
    var showAddGoal: bool

    /** The widget as first rendered, given the session count it is passed. */
    constructor (completedSessions: int)
      ensures dailyGoals == InitialGoals(completedSessions)
      ensures newGoal == "" && !showAddGoal
    {
      dailyGoals := InitialGoals(completedSessions);
      newGoal := "";
      showAddGoal := false;
    }

    /** The `todayProgress` state, recomputed whenever the goals change. */
    function Progress(): (p: real)
      reads this
      ensures 0.0 <= p <= 100.0
      ensures dailyGoals == [] ==> p == 0.0
      ensures dailyGoals != [] ==>
        (p == 100.0 <==> forall i :: 0 <= i < |dailyGoals| ==> dailyGoals[i].completed)
      ensures p == 0.0 <==> forall i :: 0 <= i < |dailyGoals| ==> !dailyGoals[i].completed
    {
      ZeroProgressIffNoneCompleted(dailyGoals);
      if dailyGoals != [] then
        FullProgressIffAllCompleted(dailyGoals);
        TodayProgress(dailyGoals)
      else
        TodayProgress(dailyGoals)
    }

    /** The effect that runs whenever the session count changes. */
    method SyncSessions(completedSessions: int)
      modifies this
      ensures dailyGoals == SyncGoals(old(dailyGoals), completedSessions)
      ensures newGoal == old(newGoal) && showAddGoal == old(showAddGoal)
    {
      dailyGoals := SyncGoals(dailyGoals, completedSessions);
    }

    /** Typing in the goal input. */
    method SetNewGoal(text: string)
      modifies this
      ensures newGoal == text
      ensures dailyGoals == old(dailyGoals) && showAddGoal == old(showAddGoal)
    {
      newGoal := text;
    }

    /** The plus button shows or hides the goal input. */
    method ToggleAddGoal()
      modifies this
      ensures showAddGoal == !old(showAddGoal)
      ensures dailyGoals == old(dailyGoals) && newGoal == old(newGoal)
    {
      showAddGoal := !showAddGoal;
    }

    /** `addGoal`, with `id` the clock reading it uses as the new goal's id.
        Input that trims to nothing is ignored; otherwise one uncompleted
        one-step goal with the trimmed text is appended, the input is
        cleared and hidden. */
    method AddGoal(id: int)
      modifies this
      ensures AllWhitespace(old(newGoal)) ==>
        dailyGoals == old(dailyGoals) && newGoal == old(newGoal) && showAddGoal == old(showAddGoal)
      ensures !AllWhitespace(old(newGoal)) ==>
        && dailyGoals == old(dailyGoals) + [Goal(id, Trim(old(newGoal)), false, 1, 0)]
        && Trim(old(newGoal)) != []
        && newGoal == "" && !showAddGoal
    {
      if Trim(newGoal) == [] {
        return;
      }
      var goal := Goal(id, Trim(newGoal), false, 1, 0);
      dailyGoals := dailyGoals + [goal];
      newGoal := "";
      showAddGoal := false;
    }

    /** `toggleGoal(id)`, as clicking a goal does. */
    method ToggleGoal(id: int)
      modifies this
      ensures dailyGoals == ToggleGoals(old(dailyGoals), id)
      ensures newGoal == old(newGoal) && showAddGoal == old(showAddGoal)
    {
      dailyGoals := ToggleGoals(dailyGoals, id);
    }
  }
}

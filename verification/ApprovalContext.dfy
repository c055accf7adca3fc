/** The ambient approval: which approved action, if any, the running task is inside. */
module ApprovalContext {
  import opened Wrappers

  datatype Marker = Marker(action: string, token: nat)

  /** The actions whose approval covers writing accounts to a device. */
  const COVERING: set<string> :=
    {"start_demo_survey", "register_discovered_device", "provision_device_credentials", "add_discovered_devices"}

  predicate IsApprovedFor(current: Option<Marker>, actions: set<string>) {
    current.Some? && current.value.action in actions
  }

  /** What a task may do, as far as the context can tell: ask, enter a scope around more work,
      spawn a task that copies the context, or raise. */
  datatype Activity =
    | Ask(actions: set<string>)
    | Scope(marker: Marker, body: seq<Activity>)
    | Spawn(body: seq<Activity>)
    | Raise

  /** Lexical reading: every question is answered by the innermost scope written around it. The
      answers in order, and whether the work ends by raising. */
  function Answers(around: Option<Marker>, works: seq<Activity>): (seq<bool>, bool)
    decreases works
  {
    if works == [] then ([], false)
    else match works[0]
      case Raise => ([], true)
      case Ask(actions) =>
        var (rest, raised) := Answers(around, works[1..]);
        ([IsApprovedFor(around, actions)] + rest, raised)
      case Spawn(body) =>
        var (child, _) := Answers(around, body);
        var (rest, raised) := Answers(around, works[1..]);
        (child + rest, raised)
      case Scope(marker, body) =>
        var (inner, innerRaised) := Answers(Some(marker), body);
        if innerRaised then (inner, true)
        else
          var (rest, raised) := Answers(around, works[1..]);
          (inner + rest, raised)
  }

  /** One piece of work after another: the second is not reached if the first raises. */
  lemma {:induction false} AnswersOfConcatenation(around: Option<Marker>, first: seq<Activity>, next: seq<Activity>)
    ensures var (x, y) := (Answers(around, first), Answers(around, next));
            Answers(around, first + next) == if x.1 then x else (x.0 + y.0, y.1)
    decreases |first|
  {
    var y := Answers(around, next);
    if first == [] {
      assert first + next == next;
      assert [] + y.0 == y.0;
    } else {
      assert (first + next)[0] == first[0] && (first + next)[1..] == first[1..] + next;
      AnswersOfConcatenation(around, first[1..], next);
      OneInFront(around, first, next);
    }
  }

  lemma OneInFront(around: Option<Marker>, first: seq<Activity>, next: seq<Activity>)
    requires first != [] && (first + next)[0] == first[0] && (first + next)[1..] == first[1..] + next
    requires var (x, y) := (Answers(around, first[1..]), Answers(around, next));
             Answers(around, first[1..] + next) == if x.1 then x else (x.0 + y.0, y.1)
    ensures var (x, y) := (Answers(around, first), Answers(around, next));
            Answers(around, first + next) == if x.1 then x else (x.0 + y.0, y.1)
  {
    var (rest, after) := (Answers(around, first[1..]).0, Answers(around, next).0);
    match first[0]
    case Raise =>
    case Ask(actions) => Regroup([IsApprovedFor(around, actions)], rest, after);
    case Spawn(body) => Regroup(Answers(around, body).0, rest, after);
    case Scope(marker, body) => Regroup(Answers(Some(marker), body).0, rest, after);
  }

  lemma Regroup(a: seq<bool>, b: seq<bool>, c: seq<bool>)
    ensures a + (b + c) == a + b + c
  {
  }

  lemma AnswersOfOne(around: Option<Marker>, marker: Marker, body: seq<Activity>, actions: set<string>)
    ensures Answers(around, []) == ([], false) && Answers(around, [Raise]) == ([], true)
    ensures Answers(around, [Ask(actions)]) == ([around.Some? && around.value.action in actions], false)
    ensures Answers(around, [Scope(marker, body)]) == Answers(Some(marker), body)
    ensures Answers(around, [Spawn(body)]) == (Answers(around, body).0, false)
  {
    assert [Ask(actions)][1..] == [] && [Scope(marker, body)][1..] == [] && [Spawn(body)][1..] == [];
    var (inner, child) := (Answers(Some(marker), body), Answers(around, body));
    var answer := [IsApprovedFor(around, actions)];
    assert inner.0 + [] == inner.0 && child.0 + [] == child.0 && answer + [] == answer;
  }

  /** What a context tells, piece by piece: nothing asked, nothing answered; a question is answered by the
      scope it stands in, whatever other scopes there were; work in a scope is answered as if that scope
      alone were around it, and so is what comes after it as if there had been none; a spawned task
      answers as its parent would, and what it raises stays its own; and what follows is reached
      exactly if nothing before it raised. */
  lemma ContextTellsTheInnermostScope(
    around: Option<Marker>, marker: Marker, body: seq<Activity>, actions: set<string>, rest: seq<Activity>)
    ensures Answers(around, [Raise] + rest) == ([], true)
    ensures var after := Answers(around, rest);
            && Answers(around, [Ask(actions)] + rest)
               == ([around.Some? && around.value.action in actions] + after.0, after.1)
            && Answers(around, [Spawn(body)] + rest) == (Answers(around, body).0 + after.0, after.1)
            && Answers(around, [Scope(marker, body)] + rest) ==
                 (if Answers(Some(marker), body).1 then Answers(Some(marker), body)
                  else (Answers(Some(marker), body).0 + after.0, after.1))
  {
    AnswersOfOne(around, marker, body, actions);
    AnswersOfConcatenation(around, [Raise], rest);
    AnswersOfConcatenation(around, [Ask(actions)], rest);
    AnswersOfConcatenation(around, [Spawn(body)], rest);
    AnswersOfConcatenation(around, [Scope(marker, body)], rest);
  }

  class Context {
    var current: Option<Marker>

    constructor (inherited: Option<Marker>)
      ensures current == inherited
    {
      current := inherited;
    }

    /** One variable, set on entry and reset on the way out, raising or not, reads exactly as the
        nesting of scopes says; a spawned task has its own copy and cannot disturb it. */
    method Run(works: seq<Activity>) returns (answers: seq<bool>, raised: bool)
      modifies this
      ensures (answers, raised) == Answers(old(current), works)
      ensures current == old(current)
      decreases works
    {
      if works == [] {
        return [], false;
      }
      match works[0]
      case Raise => return [], true;
      case Ask(actions) =>
        var here := IsApprovedFor(current, actions);
        answers, raised := Run(works[1..]);
        answers := [here] + answers;
      case Spawn(body) =>
        var child := new Context(current);
        var seen, failed := child.Run(body);
        answers, raised := Run(works[1..]);
        answers := seen + answers;
      case Scope(marker, body) =>
        var token := current;
        current := Some(marker);
        answers, raised := Run(body);
        current := token;
        if raised {
          return;
        }
        var rest, restRaised := Run(works[1..]);
        answers, raised := answers + rest, restRaised;
    }
  }

  /** Approval for one action is no approval for another: a question is answered yes only inside a
      scope of an action it names. */
  lemma {:induction false} NothingIsApprovedOutside(around: Option<Marker>, works: seq<Activity>, actions: set<string>)
    requires !IsApprovedFor(around, actions) && NoScopeOf(works, actions) && OnlyAsks(works, actions)
    ensures forall i :: 0 <= i < |Answers(around, works).0| ==> !Answers(around, works).0[i]
    decreases works
  {
    if works != [] {
      match works[0]
      case Raise =>
      case Ask(_) => NothingIsApprovedOutside(around, works[1..], actions);
      case Spawn(body) =>
        NothingIsApprovedOutside(around, body, actions);
        NothingIsApprovedOutside(around, works[1..], actions);
      case Scope(marker, body) =>
        NothingIsApprovedOutside(Some(marker), body, actions);
        NothingIsApprovedOutside(around, works[1..], actions);
    }
  }

  /** No scope in the work, however deep, is of one of `actions`. */
  predicate NoScopeOf(works: seq<Activity>, actions: set<string>)
    decreases works
  {
    works == [] ||
    (&& (match works[0]
         case Scope(marker, body) => marker.action !in actions && NoScopeOf(body, actions)
         case Spawn(body) => NoScopeOf(body, actions)
         case _ => true)
     && NoScopeOf(works[1..], actions))
  }

  /** Every question in the work is about exactly `actions`. */
  predicate OnlyAsks(works: seq<Activity>, actions: set<string>)
    decreases works
  {
    works == [] ||
    (&& (match works[0]
         case Ask(asked) => asked == actions
         case Scope(_, body) => OnlyAsks(body, actions)
         case Spawn(body) => OnlyAsks(body, actions)
         case Raise => true)
     && OnlyAsks(works[1..], actions))
  }
}

/** The portable form of a plan the runner has computed against its file system. */
module CanonicalPlans {
  import opened Protocol
  import opened Sorting

  datatype LocalActionKind = AddAction | ReplaceAction | RemoveAction | KeepAction | UpdateRecords

  /** `target` is the path below the project root, when the target lies there and is portable. */
  datatype LocalAction = LocalAction(
    kind: LocalActionKind, tools: seq<string>, skillId: string, target: Option<string>)

  datatype LocalPlan = LocalPlan(actions: seq<LocalAction>, conflicts: seq<string>)

  datatype ActionKey = ActionKey(
    change: Change, metadataOnly: bool, kind: PlanActionKind, artifactId: string, path: string)

  /** How a plan is put into portable terms: the artifact behind a local skill, the hashes, the
      identifiers a tool name may be, and the wording of conflicts without local paths. */
  datatype Naming = Naming(
    artifactOf: string -> string,
    actionId: ActionKey -> nat,
    isIdentifier: string -> bool,
    redact: string -> string,
    planDigest: (RevisionId, seq<PlanAction>, seq<string>) -> Digest)

  function ChangeOf(kind: LocalActionKind): Change {
    match kind
    case AddAction => Add
    case ReplaceAction => Replace
    case RemoveAction => Remove
    case KeepAction => Unchanged
    case UpdateRecords => Unchanged
  }

  function KindOfAction(action: LocalAction): PlanActionKind {
    if action.kind == RemoveAction then RemoveManaged
    else if "cursor" in action.tools then Copy
    else Link
  }

  function ToolOf(action: LocalAction): string {
    if action.tools == [] then "managed" else action.tools[0]
  }

  function CanonicalAction(action: LocalAction, naming: Naming): Option<PlanAction> {
    if action.target.None? || !naming.isIdentifier(ToolOf(action)) then None
    else
      var metadataOnly := action.kind == UpdateRecords;
      var artifact := naming.artifactOf(action.skillId);
      var key := ActionKey(ChangeOf(action.kind), metadataOnly, KindOfAction(action), artifact, action.target.value);
      Some(PlanAction(
        naming.actionId(key), key.kind, Some(key.change), if metadataOnly then Some(true) else None,
        artifact, ToolOf(action), action.target.value))
  }

  function CanonicalActions(actions: seq<LocalAction>, naming: Naming): Option<seq<PlanAction>> {
    if actions == [] then Some([])
    else
      var first := CanonicalAction(actions[0], naming);
      var rest := CanonicalActions(actions[1..], naming);
      if first.None? || rest.None? then None else Some([first.value] + rest.value)
  }

  predicate PlanOrder(a: PlanAction, b: PlanAction) {
    TextLeq(a.path, b.path) && (a.path == b.path ==> a.actionId <= b.actionId)
  }

  function Redacted(conflicts: seq<string>, naming: Naming): seq<string> {
    seq(|conflicts|, i requires 0 <= i < |conflicts| => naming.redact(conflicts[i]))
  }

  function CanonicalPlan(local: LocalPlan, revision: RevisionId, naming: Naming): Option<Plan> {
    var mapped := CanonicalActions(local.actions, naming);
    if mapped.None? then None
    else
      var actions := SortBy(mapped.value, PlanOrder);
      var conflicts := Redacted(local.conflicts, naming);
      Some(Plan(revision, naming.planDigest(revision, actions, conflicts), actions, conflicts))
  }

  lemma {:induction false} CanonicalActionsOfPrefix(actions: seq<LocalAction>, naming: Naming, i: nat)
    requires i < |actions|
    ensures CanonicalActions(actions[..i + 1], naming)
            == if CanonicalActions(actions[..i], naming).None? || CanonicalAction(actions[i], naming).None? then None
               else Some(CanonicalActions(actions[..i], naming).value + [CanonicalAction(actions[i], naming).value])
  {
    if i > 0 {
      CanonicalActionsOfPrefix(actions[1..], naming, i - 1);
      assert actions[..i + 1][1..] == actions[1..][..i] && actions[..i][1..] == actions[1..][..i - 1];
      var first, rest := CanonicalAction(actions[0], naming), CanonicalActions(actions[1..][..i - 1], naming);
      var last := CanonicalAction(actions[i], naming);
      if first.Some? && rest.Some? && last.Some? {
        assert [first.value] + (rest.value + [last.value]) == ([first.value] + rest.value) + [last.value];
      }
    } else {
      assert actions[..1] == [actions[0]] && actions[..1][1..] == [] && actions[..0] == [];
      SingleMapped(actions[0], naming);
      var none: seq<PlanAction> := [];
      assert CanonicalActions(actions[..0], naming) == Some(none);
      if CanonicalAction(actions[0], naming).Some? {
        assert none + [CanonicalAction(actions[0], naming).value] == [CanonicalAction(actions[0], naming).value];
      }
    }
  }

  lemma SingleMapped(action: LocalAction, naming: Naming)
    ensures CanonicalActions([action], naming)
            == if CanonicalAction(action, naming).None? then None else Some([CanonicalAction(action, naming).value])
  {
    assert [action][1..] == [];
    var rest: seq<PlanAction> := [];
    assert CanonicalActions([], naming) == Some(rest);
    if CanonicalAction(action, naming).Some? {
      assert [CanonicalAction(action, naming).value] + rest == [CanonicalAction(action, naming).value];
    }
  }

  lemma {:induction false} NoneStaysNone(actions: seq<LocalAction>, naming: Naming, i: nat)
    requires i <= |actions| && CanonicalActions(actions[..i], naming).None?
    ensures CanonicalActions(actions, naming).None?
    decreases |actions| - i
  {
    if i < |actions| {
      CanonicalActionsOfPrefix(actions, naming, i);
      NoneStaysNone(actions, naming, i + 1);
    } else {
      assert actions[..i] == actions;
    }
  }

  /** The plan is built by pushing actions onto a vector, sorted at the end. */
  method BuildCanonicalPlan(local: LocalPlan, revision: RevisionId, naming: Naming)
    returns (plan: Option<Plan>)
    ensures plan == CanonicalPlan(local, revision, naming)
  {
    var actions: seq<PlanAction> := [];
    for i := 0 to |local.actions|
      invariant CanonicalActions(local.actions[..i], naming) == Some(actions)
    {
      var action := local.actions[i];
      CanonicalActionsOfPrefix(local.actions, naming, i);
      if action.target.None? {
        NoneStaysNone(local.actions, naming, i + 1);
        return None;
      }
      var kind := if action.kind == RemoveAction then RemoveManaged
                  else if exists t | t in action.tools :: t == "cursor" then Copy else Link;
      var change := ChangeOf(action.kind);
      var metadataOnly := action.kind == UpdateRecords;
      var artifactId := naming.artifactOf(action.skillId);
      var tool := if action.tools == [] then "managed" else action.tools[0];
      if !naming.isIdentifier(tool) {
        NoneStaysNone(local.actions, naming, i + 1);
        return None;
      }
      var id := naming.actionId(ActionKey(change, metadataOnly, kind, artifactId, action.target.value));
      actions := actions + [PlanAction(
        id, kind, Some(change), if metadataOnly then Some(true) else None,
        artifactId, tool, action.target.value)];
    }
    assert local.actions[..|local.actions|] == local.actions;
    actions := SortBy(actions, PlanOrder);
    var conflicts := Redacted(local.conflicts, naming);
    plan := Some(Plan(revision, naming.planDigest(revision, actions, conflicts), actions, conflicts));
  }

  lemma PlanOrderOrders()
    ensures Orders(PlanOrder)
  {
    TextLeqOrders();
  }

  /** What becomes of one action: it keeps its path and its first tool; a removal is one of a managed
      copy, anything for Cursor is a copy, the rest are links; only a change of records is metadata. */
  lemma CanonicalActionMeans(action: LocalAction, naming: Naming)
    ensures var tool := if action.tools == [] then "managed" else action.tools[0];
      var canonical := CanonicalAction(action, naming);
      && (canonical.Some? <==> action.target.Some? && naming.isIdentifier(tool))
      && (canonical.Some? ==>
            var a := canonical.value;
            && a.path == action.target.value && a.toolId == tool && a.artifactId == naming.artifactOf(action.skillId)
            && (match action.kind
                case AddAction => a.change == Some(Add)
                case ReplaceAction => a.change == Some(Replace)
                case RemoveAction => a.change == Some(Remove)
                case KeepAction => a.change == Some(Unchanged)
                case UpdateRecords => a.change == Some(Unchanged))
            && a.metadataOnly == (if action.kind == UpdateRecords then Some(true) else None)
            && (a.kind == RemoveManaged <==> action.kind == RemoveAction)
            && (a.kind == Copy <==> action.kind != RemoveAction && exists t :: t in action.tools && t == "cursor")
            && a.actionId == naming.actionId(
                 ActionKey(a.change.value, a.metadataOnly.Some?, a.kind, a.artifactId, a.path)))
  {
  }

  lemma {:induction false} MappedActions(actions: seq<LocalAction>, naming: Naming)
    requires CanonicalActions(actions, naming).Some?
    ensures var mapped := CanonicalActions(actions, naming).value;
      |mapped| == |actions| && forall i | 0 <= i < |actions| :: CanonicalAction(actions[i], naming) == Some(mapped[i])
  {
    if actions != [] {
      MappedActions(actions[1..], naming);
      var mapped := CanonicalActions(actions, naming).value;
      forall i | 0 <= i < |actions| ensures CanonicalAction(actions[i], naming) == Some(mapped[i]) {
        assert i > 0 ==> actions[i] == actions[1..][i - 1];
      }
    }
  }

  lemma KeptActionsAreNotActionable(actions: seq<LocalAction>, naming: Naming)
    requires CanonicalActions(actions, naming).Some?
    ensures (forall a | a in CanonicalActions(actions, naming).value :: !Actionable(a))
            <==> forall a | a in actions :: a.kind == KeepAction
  {
    MappedActions(actions, naming);
    var mapped := CanonicalActions(actions, naming).value;
    forall i | 0 <= i < |mapped|
      ensures Actionable(mapped[i]) <==> actions[i].kind != KeepAction
    {
    }
    if a :| a in mapped && Actionable(a) {
      var i :| 0 <= i < |mapped| && mapped[i] == a;
      assert actions[i] in actions;
    }
    if a :| a in actions && a.kind != KeepAction {
      var i :| 0 <= i < |actions| && actions[i] == a;
      assert mapped[i] in mapped;
    }
  }

  /** A plan is in order, holds every local action once, and is empty of changes exactly when the
      runner would keep everything as it is. */
  lemma CanonicalPlanMeaning(local: LocalPlan, revision: RevisionId, naming: Naming)
    requires CanonicalPlan(local, revision, naming).Some?
    ensures var plan := CanonicalPlan(local, revision, naming).value;
      && plan.setupRevisionId == revision
      && SortedBy(plan.actions, PlanOrder)
      && multiset(plan.actions) == multiset(CanonicalActions(local.actions, naming).value)
      && (plan.conflicts == [] <==> local.conflicts == [])
      && (ActionablePlanCount(plan) == 0 <==> forall a | a in local.actions :: a.kind == KeepAction)
  {
    var mapped := CanonicalActions(local.actions, naming).value;
    PlanOrderOrders();
    SortSorts(mapped, PlanOrder);
    KeptActionsAreNotActionable(local.actions, naming);
    CountZeroExactlyWhenNothingActionable(SortBy(mapped, PlanOrder));
    assert |Redacted(local.conflicts, naming)| == |local.conflicts|;
  }

  lemma {:induction false} MappingKeepsPermutations(a: seq<LocalAction>, b: seq<LocalAction>, naming: Naming)
    requires multiset(a) == multiset(b) && CanonicalActions(a, naming).Some?
    ensures CanonicalActions(b, naming).Some?
    ensures multiset(CanonicalActions(a, naming).value) == multiset(CanonicalActions(b, naming).value)
  {
    if a == [] {
      assert |b| == |multiset(b)| == |multiset(a)| == 0;
    } else {
      var i := PermutationStep(a, b);
      MappingKeepsPermutations(a[1..], b[..i] + b[i + 1..], naming);
      MappedWithout(b, i, naming);
    }
  }

  lemma {:induction false} MappedWithout(b: seq<LocalAction>, i: nat, naming: Naming)
    requires i < |b| && CanonicalActions(b[..i] + b[i + 1..], naming).Some? && CanonicalAction(b[i], naming).Some?
    ensures CanonicalActions(b, naming).Some?
    ensures multiset(CanonicalActions(b, naming).value)
            == multiset(CanonicalActions(b[..i] + b[i + 1..], naming).value)
               + multiset{CanonicalAction(b[i], naming).value}
  {
    var rest := b[..i] + b[i + 1..];
    if i == 0 {
      assert rest == b[1..];
    } else {
      assert rest[0] == b[0] && rest[1..] == b[1..][..i - 1] + b[1..][i..];
      MappedWithout(b[1..], i - 1, naming);
    }
  }

  /** The same actions in another order. */
  ghost predicate Reorders(local: LocalPlan, other: LocalPlan) {
    multiset(local.actions) == multiset(other.actions) && local.conflicts == other.conflicts
  }

  /** The plan, and so its digest, does not depend on the order in which the runner met the
      actions, as long as no two of them share path and identifier without being equal. */
  lemma PlanForgetsTheOrderOfActions(local: LocalPlan, other: LocalPlan, revision: RevisionId, naming: Naming)
    requires Reorders(local, other) && CanonicalActions(local.actions, naming).Some?
    requires forall a, b | a in CanonicalActions(local.actions, naming).value
                           && b in CanonicalActions(local.actions, naming).value
                           && a.path == b.path && a.actionId == b.actionId :: a == b
    ensures CanonicalPlan(other, revision, naming) == CanonicalPlan(local, revision, naming)
  {
    MappingKeepsPermutations(local.actions, other.actions, naming);
    PlanOrderOrders();
    TextLeqOrders();
    SortForgetsOrder(CanonicalActions(local.actions, naming).value,
                     CanonicalActions(other.actions, naming).value, PlanOrder);
  }

  // ----- the planner's plans, and plans of any engine -----

  /** What the planner guarantees: it groups what is desired and what is there by target path and
      emits one action for each. */
  ghost predicate OneActionPerTarget(actions: seq<LocalAction>) {
    forall i, j | 0 <= i < j < |actions| && actions[i].target.Some? :: actions[i].target != actions[j].target
  }

  /** A plan of the planner has one canonical form, and one digest, in whatever order its actions
      arrive. */
  lemma PlannedOrderIsForgotten(local: LocalPlan, other: LocalPlan, revision: RevisionId, naming: Naming)
    requires OneActionPerTarget(local.actions) && Reorders(local, other)
    ensures CanonicalPlan(other, revision, naming) == CanonicalPlan(local, revision, naming)
  {
    if CanonicalActions(local.actions, naming).Some? {
      MappedActions(local.actions, naming);
      PlanForgetsTheOrderOfActions(local, other, revision, naming);
    } else if CanonicalActions(other.actions, naming).Some? {
      MappingKeepsPermutations(other.actions, local.actions, naming);
    }
  }

  predicate Tied(a: PlanAction, b: PlanAction) { a.path == b.path && a.actionId == b.actionId }

  /** The first action with the path and identifier of `x`. */
  function FirstTied(s: seq<PlanAction>, x: PlanAction): Option<PlanAction> {
    if s == [] then None else if Tied(x, s[0]) then Some(s[0]) else FirstTied(s[1..], x)
  }

  lemma {:induction false} InsertedComesFirst(x: PlanAction, s: seq<PlanAction>)
    ensures FirstTied(Insert(x, s, PlanOrder), x) == Some(x)
  {
    TextLeqOrders();
    if s == [] || PlanOrder(x, s[0]) {
      assert PlanOrder(x, x);
    } else {
      InsertedComesFirst(x, s[1..]);
      assert Insert(x, s, PlanOrder)[1..] == Insert(x, s[1..], PlanOrder);
    }
  }

  /** Among tied actions the sort keeps the one that arrived first in front. */
  lemma ArrivingFirstStaysFirst(local: LocalPlan, i: nat, revision: RevisionId, naming: Naming)
    returns (other: LocalPlan)
    requires CanonicalActions(local.actions, naming).Some? && i < |local.actions|
    ensures Reorders(local, other) && CanonicalPlan(other, revision, naming).Some?
    ensures var x := CanonicalActions(local.actions, naming).value;
      |x| == |local.actions| && FirstTied(CanonicalPlan(other, revision, naming).value.actions, x[i]) == Some(x[i])
  {
    var rest := local.actions[..i] + local.actions[i + 1..];
    other := LocalPlan([local.actions[i]] + rest, local.conflicts);
    RemovalKeepsTheRest(local.actions, i);
    assert other.actions[0] == local.actions[i] && other.actions[1..] == rest;
    MappedActions(local.actions, naming);
    MappingKeepsPermutations(local.actions, other.actions, naming);
    var mapped := CanonicalActions(other.actions, naming).value;
    InsertedComesFirst(mapped[0], SortBy(mapped[1..], PlanOrder));
  }

  /** For an arbitrary engine, arrival order matters exactly when two of its actions share path and
      identifier without being equal. */
  lemma OrderMattersExactlyForTies(local: LocalPlan, revision: RevisionId, naming: Naming)
    requires CanonicalActions(local.actions, naming).Some?
    ensures (exists other :: Reorders(local, other)
                             && CanonicalPlan(other, revision, naming) != CanonicalPlan(local, revision, naming))
            <==> exists a, b :: a in CanonicalActions(local.actions, naming).value
                                && b in CanonicalActions(local.actions, naming).value && Tied(a, b) && a != b
  {
    var mapped := CanonicalActions(local.actions, naming).value;
    if a, b :| a in mapped && b in mapped && Tied(a, b) && a != b {
      MappedActions(local.actions, naming);
      var i :| 0 <= i < |mapped| && mapped[i] == a;
      var j :| 0 <= j < |mapped| && mapped[j] == b;
      var one := ArrivingFirstStaysFirst(local, i, revision, naming);
      var two := ArrivingFirstStaysFirst(local, j, revision, naming);
      TiedSearchesAgree(CanonicalPlan(one, revision, naming).value.actions, a, b);
      assert CanonicalPlan(one, revision, naming) != CanonicalPlan(two, revision, naming);
      assert CanonicalPlan(one, revision, naming) != CanonicalPlan(local, revision, naming)
             || CanonicalPlan(two, revision, naming) != CanonicalPlan(local, revision, naming);
    } else {
      forall other | Reorders(local, other)
        ensures CanonicalPlan(other, revision, naming) == CanonicalPlan(local, revision, naming)
      {
        PlanForgetsTheOrderOfActions(local, other, revision, naming);
      }
    }
  }

  lemma {:induction false} TiedSearchesAgree(s: seq<PlanAction>, a: PlanAction, b: PlanAction)
    requires Tied(a, b)
    ensures FirstTied(s, a) == FirstTied(s, b)
  {
    if s != [] { TiedSearchesAgree(s[1..], a, b); }
  }
}

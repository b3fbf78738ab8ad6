/** What `set_and_remove_labels` (src/lib.rs:7-30, src/main.rs:167-190)
    intends: the shape and order of its calls, and the labels an issue
    carries once the server has accepted all of them. */
module ReconcileFacts {
  import opened Wrappers
  import opened Reconcile

  /** The number of configured entries of a remove list. */
  function CountSome(xs: seq<Option<string>>): nat
    decreases |xs|
  {
    if xs == [] then 0
    else CountSome(xs[..|xs| - 1]) + (if xs[|xs| - 1].Some? then 1 else 0)
  }

  /** The names a remove list configures. */
  function RemovedNames(xs: seq<Option<string>>): set<string>
    decreases |xs|
  {
    if xs == [] then {}
    else
      var last := xs[|xs| - 1];
      RemovedNames(xs[..|xs| - 1]) + (if last.Some? then {last.value} else {})
  }

  /** The label to set, as a set of zero or one names. */
  function OptSet(o: Option<string>): set<string>
  {
    if o.Some? then {o.value} else {}
  }

  lemma {:induction false} RemovalsLength(k: IssueKey, xs: seq<Option<string>>)
    ensures |Removals(k, xs)| == CountSome(xs)
    decreases |xs|
  {
    if xs != [] {
      RemovalsLength(k, xs[..|xs| - 1]);
    }
  }

  /** The calls planned: one add, of the one-element list `[l]`, first when
      a label is to be set and none otherwise; then one `remove_label` per
      configured entry; all of them on the same issue. */
  lemma PlannedShape(k: IssueKey, setLabel: Option<string>, xs: seq<Option<string>>)
    ensures var p := Planned(k, setLabel, xs);
      var adds := if setLabel.Some? then 1 else 0;
      |p| == adds + CountSome(xs)
      && (setLabel.Some? ==> p[0] == AddLabels(k, [setLabel.value]))
      && (forall j :: adds <= j < |p| ==> p[j].RemoveLabel?)
      && (forall j :: 0 <= j < |p| ==> p[j].issue == k)
  {
    var p := Planned(k, setLabel, xs);
    var added := Addition(k, setLabel);
    RemovalsLength(k, xs);
    RemovalsTarget(k, xs);
    assert forall j :: |added| <= j < |p| ==> p[j] == Removals(k, xs)[j - |added|];
  }

  /** The removal of entry `i` is the call numbered by the configured
      entries before it: removals go in list order. */
  lemma RemovalsInOrder(k: IssueKey, xs: seq<Option<string>>, i: nat)
    requires i < |xs| && xs[i].Some?
    ensures CountSome(xs[..i]) < |Removals(k, xs)|
    ensures Removals(k, xs)[CountSome(xs[..i])] == RemoveLabel(k, xs[i].value)
  {
    var before := Removals(k, xs[..i]);
    assert xs == xs[..i + 1] + xs[i + 1..];
    RemovalsAppend(k, xs[..i + 1], xs[i + 1..]);
    RemovalsStep(k, xs, i);
    RemovalsLength(k, xs[..i]);
    assert Removals(k, xs) == before + [RemoveLabel(k, xs[i].value)] + Removals(k, xs[i + 1..]);
  }

  /** Accepted removals take exactly the configured names off the issue. */
  lemma {:induction false} RemovalsEffect(m: LabelStore, k: IssueKey, xs: seq<Option<string>>)
    ensures LabelsOf(ApplyAll(m, Removals(k, xs)), k) == LabelsOf(m, k) - RemovedNames(xs)
    decreases |xs|
  {
    if xs != [] {
      var init := xs[..|xs| - 1];
      var last := xs[|xs| - 1];
      var before := Removals(k, init);
      RemovalsEffect(m, k, init);
      if last.Some? {
        var q := RemoveLabel(k, last.value);
        var mid := ApplyAll(m, before);
        assert ApplyAll(m, Removals(k, xs)) == Apply(mid, q) by {
          assert Removals(k, xs) == before + [q];
          ApplyAllSnoc(m, before, q);
        }
        assert LabelsOf(Apply(mid, q), k) == LabelsOf(m, k) - RemovedNames(xs) by {
          assert RemovedNames(xs) == RemovedNames(init) + {last.value};
          RemoveAfterRemoving(LabelsOf(m, k), RemovedNames(init), last.value);
        }
      } else {
        assert Removals(k, xs) == before by {
          assert Removals(k, xs) == before + [];
        }
      }
    }
  }

  lemma RemoveAfterRemoving(labels: set<string>, removed: set<string>, name: string)
    ensures (labels - removed) - {name} == labels - (removed + {name})
  {
  }

  /** Accepted removals on one issue leave every other issue's labels. */
  lemma {:induction false} RemovalsElsewhere(m: LabelStore, k: IssueKey, xs: seq<Option<string>>, other: IssueKey)
    requires other != k
    ensures LabelsOf(ApplyAll(m, Removals(k, xs)), other) == LabelsOf(m, other)
    decreases |xs|
  {
    if xs != [] {
      var init := xs[..|xs| - 1];
      var last := xs[|xs| - 1];
      var before := Removals(k, init);
      RemovalsElsewhere(m, k, init, other);
      if last.Some? {
        var q := RemoveLabel(k, last.value);
        assert ApplyAll(m, Removals(k, xs)) == Apply(ApplyAll(m, before), q) by {
          assert Removals(k, xs) == before + [q];
          ApplyAllSnoc(m, before, q);
        }
      } else {
        assert Removals(k, xs) == before by {
          assert Removals(k, xs) == before + [];
        }
      }
    }
  }

  /** When the server accepts every call, the issue ends with the label
      set and the configured removals taken off, in that order, and every
      other issue keeps its labels. */
  lemma FinalLabels(m: LabelStore, k: IssueKey, setLabel: Option<string>, xs: seq<Option<string>>)
    ensures var after := ApplyAll(m, Planned(k, setLabel, xs));
      LabelsOf(after, k) == (LabelsOf(m, k) + OptSet(setLabel)) - RemovedNames(xs)
      && forall other :: other != k ==> LabelsOf(after, other) == LabelsOf(m, other)
  {
    var m1 := if setLabel.Some? then Apply(m, AddLabels(k, [setLabel.value])) else m;
    assert ApplyAll(m, Planned(k, setLabel, xs)) == ApplyAll(m1, Removals(k, xs)) by {
      if setLabel.Some? {
        ApplyAllAfter(m, Addition(k, setLabel), Removals(k, xs));
      } else {
        assert Planned(k, setLabel, xs) == Removals(k, xs);
      }
    }
    assert LabelsOf(m1, k) == LabelsOf(m, k) + OptSet(setLabel) by {
      if setLabel.Some? {
        assert Elements([setLabel.value]) == {setLabel.value};
      }
    }
    RemovalsEffect(m1, k, xs);
    forall other | other != k
      ensures LabelsOf(ApplyAll(m1, Removals(k, xs)), other) == LabelsOf(m, other)
    {
      RemovalsElsewhere(m1, k, xs, other);
    }
  }

  /** With every call accepted: no configured removal name survives, and
      the label set is present exactly when no entry of the remove list
      names it too. */
  lemma FinalLabelsCorollaries(m: LabelStore, k: IssueKey, setLabel: Option<string>, xs: seq<Option<string>>)
    ensures var after := LabelsOf(ApplyAll(m, Planned(k, setLabel, xs)), k);
      (forall name :: name in RemovedNames(xs) ==> name !in after)
      && (setLabel.Some? ==> (setLabel.value in after <==> setLabel.value !in RemovedNames(xs)))
  {
    FinalLabels(m, k, setLabel, xs);
  }

  /** Running the same plan twice, all accepted, leaves the labels of
      every issue as running it once does. */
  lemma PlanIdempotent(m: LabelStore, k: IssueKey, setLabel: Option<string>, xs: seq<Option<string>>)
    ensures var p := Planned(k, setLabel, xs);
      forall k' :: LabelsOf(ApplyAll(ApplyAll(m, p), p), k') == LabelsOf(ApplyAll(m, p), k')
  {
    var p := Planned(k, setLabel, xs);
    FinalLabels(m, k, setLabel, xs);
    FinalLabels(ApplyAll(m, p), k, setLabel, xs);
  }

  /** The calls made when the server accepts them all: every planned call,
      in order, and none fails. */
  lemma AllAcceptedSendsPlan(k: IssueKey, setLabel: Option<string>, xs: seq<Option<string>>,
                             pos: nat, rejected: set<nat>)
    requires forall j :: pos <= j < pos + |Planned(k, setLabel, xs)| ==> j !in rejected
    ensures Deliver(Planned(k, setLabel, xs), pos, rejected) == Trace(Planned(k, setLabel, xs), false)
  {
    DeliverAccepted(Planned(k, setLabel, xs), pos, rejected);
  }

  /** The first refused call ends the run: the calls made are the planned
      ones up to and including the refused one, those before it were
      accepted, and no later call is made. */
  lemma FirstFailureAborts(k: IssueKey, setLabel: Option<string>, xs: seq<Option<string>>,
                           pos: nat, rejected: set<nat>, f: nat)
    requires f < |Planned(k, setLabel, xs)| && pos + f in rejected
    requires forall j :: pos <= j < pos + f ==> j !in rejected
    ensures var t := Deliver(Planned(k, setLabel, xs), pos, rejected);
      t.failed && t.sent == Planned(k, setLabel, xs)[..f + 1]
      && t.Accepted() == Planned(k, setLabel, xs)[..f]
  {
    var p := Planned(k, setLabel, xs);
    var t := Deliver(p, pos, rejected);
    DeliverSent(p, pos, rejected);
    assert pos <= pos + f < pos + |p|;
    if |t.sent| != f + 1 {
      assert false;
    }
  }
}

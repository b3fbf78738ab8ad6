/** `set_and_remove_labels` (src/lib.rs:7-30, and its copy at
    src/main.rs:167-190): add the chosen label, then remove the others one
    by one, giving up at the first call the server refuses. */
module Reconcile {
  import opened Wrappers
  import opened IntParse

  /** `oc.issues(owner, repo)`: the repository the calls go to. */
  datatype IssueHandler = IssueHandler(owner: string, repo: string)

  /** One issue (pull request) of one repository. */
  datatype IssueKey = IssueKey(owner: string, repo: string, number: nat)

  function KeyOf(h: IssueHandler, number: nat): IssueKey
  {
    IssueKey(h.owner, h.repo, number)
  }

  /** The two label calls of the issues API. */
  datatype Request =
    | AddLabels(issue: IssueKey, names: seq<string>)
    | RemoveLabel(issue: IssueKey, name: string)

  /** The context `set_and_remove_labels` puts on a failed call. */
  datatype LabelError = SettingNewLabel | RemovingOldLabels

  function ErrorFor(r: Request): LabelError
  {
    if r.AddLabels? then SettingNewLabel else RemovingOldLabels
  }

  /** The labels on every issue; an issue absent from the map has none. */
  type LabelStore = map<IssueKey, set<string>>

  function LabelsOf(m: LabelStore, k: IssueKey): set<string>
  {
    if k in m then m[k] else {}
  }

  /** The names of a list, as a set. */
  function Elements(names: seq<string>): set<string>
  {
    if names == [] then {} else {names[0]} + Elements(names[1..])
  }

  /** What an accepted call does to the labels. */
  function Apply(m: LabelStore, r: Request): LabelStore
  {
    match r
    case AddLabels(k, names) => m[k := LabelsOf(m, k) + Elements(names)]
    case RemoveLabel(k, name) => m[k := LabelsOf(m, k) - {name}]
  }

  /** The labels after the calls `reqs`, all accepted, in order. */
  function ApplyAll(m: LabelStore, reqs: seq<Request>): LabelStore
    decreases |reqs|
  {
    if reqs == [] then m else Apply(ApplyAll(m, reqs[..|reqs| - 1]), reqs[|reqs| - 1])
  }

  /** The server behind the issues API. Each call is logged; the call at
      log position `i` fails when `i` is in `rejected` (the network, the
      token, or the server refusing, for whatever reason), and a failed call
      changes no label. */
  class Remote {
    var labels: LabelStore
    var log: seq<Request>
    const rejected: set<nat>

    constructor (initial: LabelStore, rejected: set<nat>)
      ensures labels == initial && log == [] && this.rejected == rejected
    {
      labels := initial;
      log := [];
      this.rejected := rejected;
    }

    /** `add_labels(number, names)` on the issues of `h`. */
    method AddLabels(h: IssueHandler, number: nat, names: seq<string>) returns (ok: bool)
      modifies this
      ensures log == old(log) + [Request.AddLabels(KeyOf(h, number), names)]
      ensures ok <==> |old(log)| !in rejected
      ensures labels == if ok then Apply(old(labels), Request.AddLabels(KeyOf(h, number), names)) else old(labels)
    {
      var r := Request.AddLabels(KeyOf(h, number), names);
      ok := |log| !in rejected;
      if ok {
        labels := Apply(labels, r);
      }
      log := log + [r];
    }

    /** `remove_label(number, name)` on the issues of `h`. */
    method RemoveLabel(h: IssueHandler, number: nat, name: string) returns (ok: bool)
      modifies this
      ensures log == old(log) + [Request.RemoveLabel(KeyOf(h, number), name)]
      ensures ok <==> |old(log)| !in rejected
      ensures labels == if ok then Apply(old(labels), Request.RemoveLabel(KeyOf(h, number), name)) else old(labels)
    {
      var r := Request.RemoveLabel(KeyOf(h, number), name);
      ok := |log| !in rejected;
      if ok {
        labels := Apply(labels, r);
      }
      log := log + [r];
    }
  }

  /** One remove call per configured entry of `xs`, in list order. */
  function Removals(k: IssueKey, xs: seq<Option<string>>): seq<Request>
    decreases |xs|
  {
    if xs == [] then []
    else
      var last := xs[|xs| - 1];
      Removals(k, xs[..|xs| - 1]) + (if last.Some? then [RemoveLabel(k, last.value)] else [])
  }

  /** The add call for the chosen label, if there is one. */
  function Addition(k: IssueKey, setLabel: Option<string>): seq<Request>
  {
    if setLabel.Some? then [AddLabels(k, [setLabel.value])] else []
  }

  /** The calls `set_and_remove_labels` intends: the add of the chosen
      label, if any, then the removals. */
  function Planned(k: IssueKey, setLabel: Option<string>, removeLabels: seq<Option<string>>): seq<Request>
  {
    Addition(k, setLabel) + Removals(k, removeLabels)
  }

  /** The calls actually made, and whether the last of them failed. */
  datatype Trace = Trace(sent: seq<Request>, failed: bool)
  {
    /** The calls the server accepted: all those made but a refused last one. */
    function Accepted(): seq<Request>
    {
      if failed && |sent| > 0 then sent[..|sent| - 1] else sent
    }
  }

  /** Sends `reqs` in order, the first at log position `pos`, and stops
      right after the first call the server refuses. */
  function Deliver(reqs: seq<Request>, pos: nat, rejected: set<nat>): Trace
    decreases |reqs|
  {
    if reqs == [] then Trace([], false)
    else if pos in rejected then Trace([reqs[0]], true)
    else
      var t := Deliver(reqs[1..], pos + 1, rejected);
      Trace([reqs[0]] + t.sent, t.failed)
  }

  lemma AppendAssoc<T>(a: seq<T>, b: seq<T>, c: seq<T>)
    ensures (a + b) + c == a + (b + c)
  {
  }

  lemma ApplyAllSnoc(m: LabelStore, reqs: seq<Request>, r: Request)
    ensures ApplyAll(m, reqs + [r]) == Apply(ApplyAll(m, reqs), r)
  {
    assert (reqs + [r])[..|reqs|] == reqs;
  }

  /** Applying a first call and then the rest is applying them all. */
  lemma {:induction false} ApplyAllCons(m: LabelStore, r: Request, rest: seq<Request>)
    ensures ApplyAll(Apply(m, r), rest) == ApplyAll(m, [r] + rest)
    decreases |rest|
  {
    if rest != [] {
      var all := [r] + rest;
      assert all[..|all| - 1] == [r] + rest[..|rest| - 1];
      ApplyAllCons(m, r, rest[..|rest| - 1]);
    } else {
      assert ([r] + rest)[..0] == [];
    }
  }

  /** Sending: the calls made are a prefix of the intended ones; every
      call but the last one made was accepted; the sequence fails exactly
      when some intended call's position is refused, and then the last
      call made is the first refused one and nothing after it is sent. */
  lemma {:induction false} DeliverSent(reqs: seq<Request>, pos: nat, rejected: set<nat>)
    ensures var t := Deliver(reqs, pos, rejected);
      |t.sent| <= |reqs| && t.sent == reqs[..|t.sent|]
      && (forall j :: pos <= j < pos + |t.sent| - 1 ==> j !in rejected)
      && (t.failed <==> exists j :: pos <= j < pos + |reqs| && j in rejected)
      && (t.failed ==> |t.sent| > 0 && pos + |t.sent| - 1 in rejected)
      && (!t.failed ==> t.sent == reqs)
    decreases |reqs|
  {
    if reqs != [] && pos !in rejected {
      DeliverSent(reqs[1..], pos + 1, rejected);
      assert reqs == [reqs[0]] + reqs[1..];
      RefusedPastFirst(pos, |reqs|, rejected);
    }
  }

  /** When `pos` is not refused, some position of `[pos, pos + n)` is
      refused exactly when one of `[pos + 1, pos + n)` is. */
  lemma RefusedPastFirst(pos: nat, n: nat, rejected: set<nat>)
    requires pos !in rejected
    ensures (exists j :: pos <= j < pos + n && j in rejected)
        <==> (exists j :: pos + 1 <= j < pos + n && j in rejected)
  {
    if exists j :: pos <= j < pos + n && j in rejected {
      var j :| pos <= j < pos + n && j in rejected;
      assert pos + 1 <= j;
    }
  }

  /** When the server accepts every call, all intended calls are made and
      their effects applied. */
  lemma DeliverAccepted(reqs: seq<Request>, pos: nat, rejected: set<nat>)
    requires forall j :: pos <= j < pos + |reqs| ==> j !in rejected
    ensures Deliver(reqs, pos, rejected) == Trace(reqs, false)
  {
    DeliverSent(reqs, pos, rejected);
  }

  /** Sending a prefix that the server accepts whole, then the rest. */
  lemma {:induction false} DeliverAppend(done: seq<Request>, rest: seq<Request>, pos: nat, rejected: set<nat>)
    requires forall j :: pos <= j < pos + |done| ==> j !in rejected
    ensures var t := Deliver(rest, pos + |done|, rejected);
      Deliver(done + rest, pos, rejected) == Trace(done + t.sent, t.failed)
    decreases |done|
  {
    if done != [] {
      assert (done + rest)[0] == done[0];
      assert (done + rest)[1..] == done[1..] + rest;
      assert pos !in rejected;
      DeliverAppend(done[1..], rest, pos + 1, rejected);
      assert [done[0]] + (done[1..] + Deliver(rest, pos + |done|, rejected).sent)
          == done + Deliver(rest, pos + |done|, rejected).sent;
    } else {
      assert done + rest == rest;
    }
  }

  lemma {:induction false} RemovalsAppend(k: IssueKey, xs: seq<Option<string>>, ys: seq<Option<string>>)
    ensures Removals(k, xs + ys) == Removals(k, xs) + Removals(k, ys)
    decreases |ys|
  {
    if ys == [] {
      assert xs + ys == xs;
    } else {
      var zs := xs + ys;
      assert zs[..|zs| - 1] == xs + ys[..|ys| - 1];
      RemovalsAppend(k, xs, ys[..|ys| - 1]);
    }
  }

  /** No log position in `[lo, hi)` is refused. */
  ghost predicate NoneRefused(lo: nat, hi: nat, rejected: set<nat>)
  {
    forall j :: lo <= j < hi ==> j !in rejected
  }

  /** One more entry of the remove list adds at most its own call. */
  lemma RemovalsStep(k: IssueKey, xs: seq<Option<string>>, i: nat)
    requires i < |xs|
    ensures Removals(k, xs[..i + 1]) ==
      Removals(k, xs[..i]) + (if xs[i].Some? then [RemoveLabel(k, xs[i].value)] else [])
  {
    assert xs[..i + 1][..i] == xs[..i];
  }

  /** The labels after an accepted first call and then `rest`. */
  lemma ApplyAllAfter(m: LabelStore, first: seq<Request>, rest: seq<Request>)
    requires |first| == 1
    ensures ApplyAll(m, first + rest) == ApplyAll(Apply(m, first[0]), rest)
  {
    assert first == [first[0]];
    ApplyAllCons(m, first[0], rest);
  }

  /** Every removal call is a `remove_label` on the same issue. */
  lemma {:induction false} RemovalsTarget(k: IssueKey, xs: seq<Option<string>>)
    ensures forall j :: 0 <= j < |Removals(k, xs)| ==>
      Removals(k, xs)[j].RemoveLabel? && Removals(k, xs)[j].issue == k
    decreases |xs|
  {
    if xs != [] {
      RemovalsTarget(k, xs[..|xs| - 1]);
    }
  }

  /** The removals when those before entry `i` were accepted and the
      removal of entry `i` is refused. */
  lemma RemovalRefused(k: IssueKey, xs: seq<Option<string>>, i: nat, pos: nat, rejected: set<nat>)
    requires i < |xs| && xs[i].Some?
    requires forall j :: pos <= j < pos + |Removals(k, xs[..i])| ==> j !in rejected
    requires pos + |Removals(k, xs[..i])| in rejected
    ensures Deliver(Removals(k, xs), pos, rejected) ==
      Trace(Removals(k, xs[..i]) + [RemoveLabel(k, xs[i].value)], true)
  {
    var done := Removals(k, xs[..i]);
    var q := RemoveLabel(k, xs[i].value);
    var tail := Removals(k, xs[i + 1..]);
    assert xs == xs[..i + 1] + xs[i + 1..];
    RemovalsAppend(k, xs[..i + 1], xs[i + 1..]);
    RemovalsStep(k, xs, i);
    assert Removals(k, xs) == done + ([q] + tail);
    DeliverAppend(done, [q] + tail, pos, rejected);
  }

  /** The `for` loop of `set_and_remove_labels`: one remove call per
      configured entry, in order, stopping at the first refused one. */
  method RemoveEach(remote: Remote, h: IssueHandler, prNum: U64, removeLabels: seq<Option<string>>)
    returns (r: Outcome<LabelError>)
    modifies remote
    ensures var t := Deliver(Removals(KeyOf(h, prNum), removeLabels), |old(remote.log)|, remote.rejected);
      remote.log == old(remote.log) + t.sent
      && remote.labels == ApplyAll(old(remote.labels), t.Accepted())
      && r == if t.failed then Fail(RemovingOldLabels) else Pass
  {
    var k := KeyOf(h, prNum);
    ghost var m0 := remote.labels;
    ghost var n0 := |remote.log|;
    ghost var done: seq<Request> := [];
    assert removeLabels[..0] == [];
    for i := 0 to |removeLabels|
      invariant done == Removals(k, removeLabels[..i])
      invariant remote.log == old(remote.log) + done
      invariant remote.labels == ApplyAll(m0, done)
      invariant NoneRefused(n0, |remote.log|, remote.rejected)
    {
      ghost var step := if removeLabels[i].Some? then [RemoveLabel(k, removeLabels[i].value)] else [];
      assert Removals(k, removeLabels[..i + 1]) == done + step by {
        RemovalsStep(k, removeLabels, i);
      }
      if removeLabels[i].Some? {
        var ok := remote.RemoveLabel(h, prNum, removeLabels[i].value);
        if !ok {
          assert Deliver(Removals(k, removeLabels), n0, remote.rejected) == Trace(done + step, true) by {
            RemovalRefused(k, removeLabels, i, n0, remote.rejected);
          }
          assert (done + step)[..|done + step| - 1] == done;
          return Fail(RemovingOldLabels);
        }
        assert ApplyAll(m0, done + step) == Apply(ApplyAll(m0, done), step[0]) by {
          ApplyAllSnoc(m0, done, step[0]);
        }
        done := done + step;
      }
    }
    assert Deliver(Removals(k, removeLabels), n0, remote.rejected) == Trace(done, false) by {
      assert removeLabels[..|removeLabels|] == removeLabels;
      DeliverAccepted(Removals(k, removeLabels), n0, remote.rejected);
    }
    r := Pass;
  }

  /** Sending a call the server accepts, then the rest. */
  lemma DeliverCons(q: Request, rest: seq<Request>, pos: nat, rejected: set<nat>)
    requires pos !in rejected
    ensures var t := Deliver(rest, pos + 1, rejected);
      Deliver([q] + rest, pos, rejected) == Trace([q] + t.sent, t.failed)
  {
    assert ([q] + rest)[1..] == rest;
  }

  /** A refused first call ends the run there. */
  lemma FirstRefused(q: Request, rest: seq<Request>, pos: nat, rejected: set<nat>)
    requires pos in rejected
    ensures Deliver([q] + rest, pos, rejected) == Trace([q], true)
  {
    assert ([q] + rest)[0] == q;
  }

  /** After at most one accepted call, the run is the rest sent from the
      next position. */
  lemma AddAccepted(added: seq<Request>, rest: seq<Request>, pos: nat, rejected: set<nat>)
    requires |added| <= 1 && (|added| == 1 ==> pos !in rejected)
    ensures var t := Deliver(rest, pos + |added|, rejected);
      Deliver(added + rest, pos, rejected) == Trace(added + t.sent, t.failed)
  {
    if |added| == 1 {
      assert added == [added[0]];
      DeliverCons(added[0], rest, pos, rejected);
    } else {
      assert added + rest == rest && added + Deliver(rest, pos, rejected).sent == Deliver(rest, pos, rejected).sent;
    }
  }

  /** A failed run of removals ends with a refused removal, whatever was
      sent before it. */
  lemma RefusedIsRemoval(before: seq<Request>, rest: seq<Request>, pos: nat, rejected: set<nat>)
    requires forall j :: 0 <= j < |rest| ==> rest[j].RemoveLabel?
    ensures var t := Deliver(rest, pos, rejected);
      t.failed ==> ErrorFor((before + t.sent)[|before + t.sent| - 1]) == RemovingOldLabels
  {
    var t := Deliver(rest, pos, rejected);
    if t.failed {
      assert t.sent[|t.sent| - 1].RemoveLabel? by {
        DeliverSent(rest, pos, rejected);
        assert t.sent[|t.sent| - 1] == rest[|t.sent| - 1];
      }
      LastOfAppend(before, t.sent);
    }
  }

  lemma LastOfAppend<T>(a: seq<T>, b: seq<T>)
    requires |b| > 0
    ensures (a + b)[|a + b| - 1] == b[|b| - 1]
  {
  }

  /** The labels after at most one accepted call and then the accepted
      calls of the rest. */
  lemma AddAcceptedLabels(added: seq<Request>, rest: seq<Request>, m: LabelStore, pos: nat, rejected: set<nat>)
    requires |added| <= 1 && (|added| == 1 ==> pos !in rejected)
    ensures var t := Deliver(rest, pos + |added|, rejected);
      ApplyAll(m, Deliver(added + rest, pos, rejected).Accepted())
        == ApplyAll(if |added| == 1 then Apply(m, added[0]) else m, t.Accepted())
  {
    var t := Deliver(rest, pos + |added|, rejected);
    if |added| == 1 {
      var q := added[0];
      assert added == [q];
      assert Deliver(added + rest, pos, rejected) == Trace([q] + t.sent, t.failed) by {
        DeliverCons(q, rest, pos, rejected);
      }
      assert Deliver(added + rest, pos, rejected).Accepted() == [q] + t.Accepted() by {
        DeliverSent(rest, pos + 1, rejected);
      }
      ApplyAllCons(m, q, t.Accepted());
    } else {
      assert added + rest == rest;
    }
  }

  /** Add the chosen label, if any, then remove each configured label of
      `removeLabels` in order; the first refused call ends the run with
      its error. What the server sees and ends up with is exactly what
      sending the intended calls one by one gives. */
  method SetAndRemoveLabels(remote: Remote, h: IssueHandler, prNum: U64,
                            setLabel: Option<string>, removeLabels: seq<Option<string>>)
    returns (r: Outcome<LabelError>)
    modifies remote
    ensures var t := Deliver(Planned(KeyOf(h, prNum), setLabel, removeLabels),
                             |old(remote.log)|, remote.rejected);
      remote.log == old(remote.log) + t.sent
      && remote.labels == ApplyAll(old(remote.labels), t.Accepted())
      && r == if t.failed then Fail(ErrorFor(t.sent[|t.sent| - 1])) else Pass
  {
    var k := KeyOf(h, prNum);
    ghost var added := Addition(k, setLabel);
    ghost var removals := Removals(k, removeLabels);
    ghost var m0 := remote.labels;
    ghost var n0 := |remote.log|;
    if setLabel.Some? {
      var ok := remote.AddLabels(h, prNum, [setLabel.value]);
      if !ok {
        FirstRefused(added[0], removals, n0, remote.rejected);
        return Fail(SettingNewLabel);
      }
    }
    ghost var log1 := remote.log;
    assert log1 == old(remote.log) + added;
    RemovalsTarget(k, removeLabels);
    AddAccepted(added, removals, n0, remote.rejected);
    RefusedIsRemoval(added, removals, |log1|, remote.rejected);
    AddAcceptedLabels(added, removals, m0, n0, remote.rejected);
    r := RemoveEach(remote, h, prNum, removeLabels);
    ghost var sent := Deliver(removals, |log1|, remote.rejected).sent;
    assert remote.log == old(remote.log) + (added + sent) by {
      AppendAssoc(old(remote.log), added, sent);
    }
  }
}

/** The two strings the action takes apart before doing anything else: the
    PR number inside the checked-out ref (`refs/pull/<n>/merge`) and the
    `owner/repo` repository name (src/main.rs:83-104). */
module Refs {
  import opened Wrappers
  import opened Text
  import opened IntParse

  datatype RefError =
    | BadPrNumber(segment: string, kind: IntErrorKind)
    | InvalidRepositoryName(parts: seq<string>)

  /** The ref GitHub checks out for pull request `n`. */
  function MergeRef(n: string): string
  {
    "refs/pull/" + n + "/merge"
  }

  /** The PR number of the head ref: `None` unless the ref splits on `/`
      into exactly `refs`, `pull`, a third segment and `merge`; for that
      shape the third segment must parse as a `u64`, or the run fails. */
  function PrNumber(headRef: string): Result<Option<U64>, RefError>
  {
    var parts := Split(headRef, '/');
    if |parts| == 4 && parts[0] == "refs" && parts[1] == "pull" && parts[3] == "merge" then
      match ParseU64(parts[2])
      case Ok(n) => Ok(Some(n))
      case Err(k) => Err(BadPrNumber(parts[2], k))
    else Ok(None)
  }

  ghost predicate IsMergeRef(r: string)
  {
    exists n :: '/' !in n && r == MergeRef(n)
  }

  lemma MergeRefSplit(n: string)
    requires '/' !in n
    ensures Split(MergeRef(n), '/') == ["refs", "pull", n, "merge"]
  {
    var parts := ["refs", "pull", n, "merge"];
    assert Join(parts[3..], '/') == "merge";
    assert Join(parts[2..], '/') == n + "/merge";
    assert Join(parts[1..], '/') == "pull/" + n + "/merge";
    assert Join(parts, '/') == MergeRef(n);
    SplitJoin(parts, '/');
  }

  /** A ref of the merge shape yields the parsed number, or the parse
      error; it never yields `None`. */
  lemma PrNumberOfMergeRef(n: string)
    requires '/' !in n
    ensures PrNumber(MergeRef(n)) ==
      match ParseU64(n)
      case Ok(v) => Ok(Some(v))
      case Err(k) => Err(BadPrNumber(n, k))
  {
    MergeRefSplit(n);
  }

  /** Every ref is one of three cases: not of the merge shape, and then
      `None`; of the merge shape with a number that parses, and then that
      number; of the merge shape with a segment that does not parse, and
      then an error. */
  lemma PrNumberMeaning(r: string)
    ensures PrNumber(r) == Ok(None) <==> !IsMergeRef(r)
    ensures PrNumber(r).Ok? && PrNumber(r).value.Some? ==>
      exists n :: '/' !in n && r == MergeRef(n) && ParseU64(n) == Ok(PrNumber(r).value.value)
    ensures PrNumber(r).Err? ==>
      exists n :: '/' !in n && r == MergeRef(n) && ParseU64(n).Err?
  {
    var parts := Split(r, '/');
    if |parts| == 4 && parts[0] == "refs" && parts[1] == "pull" && parts[3] == "merge" {
      var n := parts[2];
      JoinSplit(r, '/');
      SplitSegmentsFree(r, '/');
      assert '/' !in n;
      assert Join(parts[3..], '/') == "merge";
      assert Join(parts[2..], '/') == n + "/merge";
      assert Join(parts[1..], '/') == "pull/" + n + "/merge";
      assert r == MergeRef(n);
    } else if IsMergeRef(r) {
      var n :| '/' !in n && r == MergeRef(n);
      MergeRefSplit(n);
      assert false;
    }
  }

  /** The repository's owner and name: the text must split on `/` into
      exactly two segments. */
  function OwnerRepo(repository: string): Result<(string, string), RefError>
  {
    var parts := Split(repository, '/');
    if |parts| != 2 then Err(InvalidRepositoryName(parts))
    else Ok((parts[0], parts[1]))
  }

  /** The name is refused exactly when it does not hold one `/`; when it is
      accepted, owner and repo are the `/`-free texts on either side. */
  lemma OwnerRepoMeaning(repository: string)
    ensures OwnerRepo(repository).Err? <==> Occurrences(repository, '/') != 1
    ensures OwnerRepo(repository).Ok? ==>
      var (owner, repo) := OwnerRepo(repository).value;
      repository == owner + "/" + repo && '/' !in owner && '/' !in repo
  {
    SplitLength(repository, '/');
    var parts := Split(repository, '/');
    if |parts| == 2 {
      JoinSplit(repository, '/');
      SplitSegmentsFree(repository, '/');
      assert Join(parts[1..], '/') == parts[1];
    }
  }

  /** Any `owner/repo` pair of `/`-free texts is taken apart again. */
  lemma OwnerRepoOfJoin(owner: string, repo: string)
    requires '/' !in owner && '/' !in repo
    ensures OwnerRepo(owner + "/" + repo) == Ok((owner, repo))
  {
    var parts := [owner, repo];
    assert Join(parts[1..], '/') == repo;
    assert Join(parts, '/') == owner + "/" + repo;
    SplitJoin(parts, '/');
  }

  /** The ref of PR 42 gives 42, with or without a `+` before the digits. */
  lemma PrNumberAccepts()
    ensures PrNumber("refs/pull/42/merge") == Ok(Some(42))
    ensures PrNumber("refs/pull/+42/merge") == Ok(Some(42))
  {
    assert "refs/pull/42/merge" == MergeRef("42");
    PrNumberOfMergeRef("42");
    assert "refs/pull/+42/merge" == MergeRef("+42");
    PrNumberOfMergeRef("+42");
    assert Accumulate(0, "42") == Accumulate(4, "2");
  }

  /** An empty or non-numeric number segment fails the run. */
  lemma PrNumberRejects()
    ensures PrNumber("refs/pull//merge") == Err(BadPrNumber("", Empty))
    ensures PrNumber("refs/pull/4x2/merge") == Err(BadPrNumber("4x2", InvalidDigit))
  {
    assert "refs/pull//merge" == MergeRef("");
    PrNumberOfMergeRef("");
    assert "refs/pull/4x2/merge" == MergeRef("4x2");
    PrNumberOfMergeRef("4x2");
    assert Accumulate(0, "4x2") == Accumulate(4, "x2");
  }

  /** A branch ref is not a PR ref. */
  lemma PrNumberSkipsBranch()
    ensures PrNumber("refs/heads/main") == Ok(None)
  {
    var branch := ["refs", "heads", "main"];
    assert Join(branch[2..], '/') == "main";
    assert Join(branch[1..], '/') == "heads/main";
    assert Join(branch, '/') == "refs/heads/main";
    SplitJoin(branch, '/');
    assert Split("refs/heads/main", '/') == branch;
  }

  /** A merge ref with a trailing `/` splits into five segments: not a PR ref. */
  lemma PrNumberSkipsTrailingSlash()
    ensures PrNumber("refs/pull/42/merge/") == Ok(None)
  {
    var trailing := ["refs", "pull", "42", "merge", ""];
    assert Join(trailing[4..], '/') == "";
    assert Join(trailing[3..], '/') == "merge/";
    assert Join(trailing[2..], '/') == "42/merge/";
    assert Join(trailing[1..], '/') == "pull/42/merge/";
    assert Join(trailing, '/') == "refs/pull/42/merge/";
    SplitJoin(trailing, '/');
    assert Split("refs/pull/42/merge/", '/') == trailing;
  }
}

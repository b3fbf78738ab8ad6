# action-label-rust-incompatible, modelled in Dafny

The action runs on a pull request of a Rust crate. It compares the head
against the base with `cargo semver`, reads the report's overall change
category (`Patch`, `NonBreaking`, `TechnicallyBreaking` or `Breaking`), sets
the label configured for that category, and removes the labels configured
for the other three. This project models the decision logic around the
external tools and proves what it does:

- `Text` models `str::split` on a character: empty segments are kept, and
  there is always at least one segment.
- `IntParse` models `u64::from_str`, with one optional leading `+`, the
  `Empty`, `InvalidDigit` and `PosOverflow` errors, and the 64-bit bound.
- `Refs` models the pull-request number taken from `GITHUB_REF`
  (`refs/pull/<n>/merge`) and the `owner/repo` split of
  `GITHUB_REPOSITORY`.
- `Serde` models how `serde_json` reads a derived three-field struct, in
  object form and in array form. It works on an already-parsed JSON tree.
- `Report` models the `SemverResult`, `SemverResultChanges` and
  `ChangeTypes` types, and extracts `changes.max_category`.
- `LabelPlan` models the choice of the label to set and the three labels to
  remove.
- `Reconcile` models `set_and_remove_labels`. It runs against a `Remote`
  class: an issue-label store plus a log of the API calls made, where the
  call at a given log position may be refused. `ReconcileFacts` proves the
  properties of the calls it intends.
- `Action` models `main`: its steps in source order, the non-PR early
  return, and the hand-off to the label step.

Notes on the code:

- It has no `git fetch` step: the base ref must already be in the checkout.
- It defines no ordering on the categories; each is handled by its own
  `match` arm.
- It does not tolerate removing an absent label: that call's error ends the
  run like any other.
- The remove list is a three-element list in declaration order, not a set.
- Neither checkout in `src/main.rs` passes `--force` (base at
  `src/main.rs:244-255`, head at `src/main.rs:259-270`); only the copy of
  `prepare_directories` in `src/lib.rs` does.
- Adding a label the pull request already has is left to the server:
  nothing in the code makes it idempotent.

## Model

| member | source | states |
|---|---|---|
| Text.Split | src/main.rs:68 | splitting always yields at least one segment |
| Text.SplitSegmentsFree | src/main.rs:68 | no segment contains the separator |
| Text.JoinSplit | src/main.rs:68 | joining the segments with the separator gives back the input |
| Text.SplitJoin | src/main.rs:99 | splitting a join of non-empty, separator-free parts gives back exactly those parts |
| Text.SplitLength | src/main.rs:99-100 | the number of segments is the number of separators plus one |
| IntParse.ParseU64 | src/main.rs:89-91 | `u64::from_str` on the number segment; its meaning is stated by `IntParse.ParseU64Meaning`, `IntParse.ParseDecimal` and `IntParse.ParseOverflow` |
| IntParse.Accumulate | src/main.rs:89-91 | the digit loop of `from_str`; its meaning is stated by `IntParse.AccumulateMeaning` and `IntParse.AccumulateOverflow` |
| IntParse.AccumulateMeaning | src/main.rs:89-91 | digit accumulation succeeds exactly when every character is a digit and the decimal value fits in 64 bits, and then yields that value; it never reports `Empty` |
| IntParse.ParseU64Meaning | src/main.rs:89-91 | `u64` parsing succeeds exactly when the text after one optional `+` is a non-empty run of digits whose value is at most 2^64-1, and yields that value; `Empty` is returned exactly for the empty text |
| IntParse.Decimal | src/main.rs:89-91 | the decimal rendering of a number is a non-empty run of digits |
| IntParse.ValueDecimal | src/main.rs:89-91 | the value of a number's decimal rendering is the number |
| IntParse.ParseDecimal | src/main.rs:89-91 | parsing the decimal rendering of any 64-bit number, with or without a leading `+`, gives the number back |
| IntParse.AccumulateOverflow | src/main.rs:89-91 | an all-digit text whose value exceeds 2^64-1 is refused as `PosOverflow`, never as `InvalidDigit` |
| IntParse.ParseOverflow | src/main.rs:89-91 | the text of 2^64 is refused as `PosOverflow` |
| Refs.PrNumber | src/main.rs:83-95 | the pull-request number of the ref; `Refs.PrNumberMeaning` and `Refs.PrNumberOfMergeRef` state when it is `None`, `Some` or an error |
| Refs.OwnerRepo | src/main.rs:99-104 | the `owner/repo` split of the repository name; `Refs.OwnerRepoMeaning` and `Refs.OwnerRepoOfJoin` state when it is accepted and what it yields |
| Refs.MergeRefSplit | src/main.rs:68 | `refs/pull/<n>/merge` with a slash-free `<n>` splits into exactly its four segments |
| Refs.PrNumberOfMergeRef | src/main.rs:83-92 | for a merge ref, the result is the parse of `<n>`: `Some(value)` on success, and otherwise an error that names the segment and the parse error |
| Refs.PrNumberMeaning | src/main.rs:83-95 | the result is `None` exactly when the ref is not of the form `refs/pull/<n>/merge`; `Some(v)` means `<n>` parses to `v`; an error means `<n>` does not parse |
| Refs.OwnerRepoMeaning | src/main.rs:99-104 | the repository name is rejected exactly when it does not contain exactly one `/`; otherwise it is `owner/repo`, with both parts slash-free |
| Refs.OwnerRepoOfJoin | src/main.rs:99-104 | `owner/repo` with slash-free parts gives exactly `(owner, repo)` |
| Refs.PrNumberAccepts | src/main.rs:82-92 | `refs/pull/42/merge` and `refs/pull/+42/merge` both give `Some(42)` |
| Refs.PrNumberRejects | src/main.rs:89-91 | an empty or non-numeric number segment fails the run instead of giving `None` |
| Refs.PrNumberSkipsBranch | src/main.rs:83-95 | a branch ref gives `None` |
| Refs.PrNumberSkipsTrailingSlash | src/main.rs:83-95 | a merge ref with a trailing `/` has five segments and gives `None` |
| Serde.VisitMap | src/main.rs:49-61 | the derived `visit_map` of a three-field struct; `Serde.VisitMapMeaning` states exactly when it succeeds and with which values |
| Serde.VisitSeq | src/main.rs:49-61 | the derived `visit_seq` of a three-field struct; `Serde.VisitSeqMeaning` and the array cases of `Report.ParseChangesMeaning` and `Report.MaxCategoryMeaning` state exactly when it succeeds |
| Serde.Struct3 | src/main.rs:49-61 | a three-field struct read from an object by `visit_map`, from an array by `visit_seq`, and any other JSON value refused; characterized through `Report.ParseChangesMeaning` and `Report.MaxCategoryMeaning` |
| Serde.VisitMapMeaning | src/main.rs:49-61 | a derived struct read from an object succeeds exactly when each declared field occurs exactly once with a value of the right shape, whatever other keys there are and in whatever order; the result holds each field's value |
| Serde.VisitSeqMeaning | src/main.rs:49-61 | an array is read as the struct exactly when it has three elements that each read as their field, in declaration order; the result holds those values |
| Report.ParseChangeType | src/main.rs:41-47 | the derived reading of `ChangeTypes`; `Report.ParseChangeTypeMeaning` states exactly which JSON values denote each category |
| Report.ParseChanges | src/main.rs:49-54 | the derived reading of `SemverResultChanges`; `Report.ParseChangesMeaning` states exactly when it yields category `c` |
| Report.ParseSemverResult | src/main.rs:56-61 | the derived reading of `SemverResult`; `Report.MaxCategoryMeaning` states exactly when it yields a result whose category is `c` |
| Report.MaxCategory | src/main.rs:210-215 | the category `run` returns from the report; `Report.MaxCategoryMeaning` states exactly when it is `c` |
| Report.VariantNamedMeaning | src/main.rs:41-47 | a variant name is accepted exactly when it is one of the four declared names; any other name is `UnknownVariant` |
| Report.ParseChangeTypeMeaning | src/main.rs:41-47 | a category is read exactly from its name as a string, or from an object whose single member maps that name to `null` |
| Report.ParseChangesMeaning | src/main.rs:49-54 | the `changes` struct is read with category `c` exactly when its three fields are present once each, with `max_category` denoting `c`, or when it is an array of three whose first element denotes `c` |
| Report.MaxCategoryMeaning | src/main.rs:210-215 | the category returned is `c` exactly when the report is a well-formed `SemverResult` whose `changes.max_category` denotes `c` |
| Report.MissingMaxCategory | src/main.rs:50-51 | a `changes` object without `max_category` is an error, not a default |
| Report.UnknownCategory | src/main.rs:41-47 | a `max_category` outside the four variant names is an error |
| Report.SampleReportIsBreaking | src/main.rs:10-39 | the sample report the source documents is read as `Breaking` |
| LabelPlan.SelectPlan | src/main.rs:129-154 | the two `match` expressions choosing the label to set and the labels to remove; `LabelPlan.SelectPlanMeaning` and `LabelPlan.OthersAreThree` state the choice |
| LabelPlan.SelectPlanMeaning | src/main.rs:129-154 | the label to set is the one configured for the observed category; the labels to remove are the configured labels of the other categories, in declaration order |
| LabelPlan.OthersAreThree | src/main.rs:135-154 | exactly three other categories are removed; the observed category's own slot is never among them, and every other category's slot is |
| Reconcile.Planned | src/lib.rs:13-27 | the calls `set_and_remove_labels` intends, in order; `ReconcileFacts.PlannedShape`, `ReconcileFacts.RemovalsInOrder` and `ReconcileFacts.FinalLabels` state their shape, order and effect |
| Reconcile.Deliver | src/lib.rs:13-27 | sending calls in order and stopping at the first refused one (the `?` after each call); `Reconcile.DeliverSent` and `Reconcile.DeliverAccepted` state what is sent and when the run fails |
| Reconcile.Remote.AddLabels | src/lib.rs:14-17 | the call is logged; it is refused exactly when its log position is refused; an accepted call adds the names to that issue, and a refused one changes nothing |
| Reconcile.Remote.RemoveLabel | src/lib.rs:22-25 | the call is logged; it is refused exactly when its log position is refused; an accepted call removes the name from that issue, and a refused one changes nothing |
| Reconcile.DeliverSent | src/lib.rs:13-27 | the calls made are a prefix of those intended; every call but the last one made was accepted; the run fails exactly when some intended call's position is refused, and then the last call made is the refused one; a run that does not fail makes every intended call |
| Reconcile.DeliverAccepted | src/lib.rs:13-29 | when no call is refused, every intended call is made and the run succeeds |
| Reconcile.RemovalsTarget | src/lib.rs:20-27 | every removal call is a `remove_label` on the same pull request |
| Reconcile.RemovalRefused | src/lib.rs:20-27 | when the removal of entry `i` is refused after the earlier removals were accepted, the run stops right there |
| Reconcile.RemoveEach | src/lib.rs:20-27 | the loop makes exactly the calls that sending the removals in list order makes, leaves exactly their accepted effects on the labels, and reports the removal error exactly when a removal was refused |
| Reconcile.AddAccepted | src/lib.rs:13-20 | after an accepted add call, the run is the removals sent from the next log position |
| Reconcile.RefusedIsRemoval | src/lib.rs:20-25 | a failed run of removals ends with a refused `remove_label` |
| Reconcile.AddAcceptedLabels | src/lib.rs:13-27 | the labels after an accepted add and the accepted removals are those of applying the add first and then the removals |
| Reconcile.SetAndRemoveLabels | src/lib.rs:7-30 | the log grows by exactly the calls that sending the intended calls in order makes, stopping after the first refused one; the labels carry exactly the accepted calls' effects; the error is the add's when the add was refused, the removals' when a removal was refused, and none otherwise (identical copy at src/main.rs:167-190) |
| ReconcileFacts.RemovalsLength | src/lib.rs:20-27 | there is one removal call per configured entry of the remove list |
| ReconcileFacts.PlannedShape | src/lib.rs:13-27 | the intended calls are one add of `[l]`, first, when a label is set, and no add otherwise; then only removals; all of them on the same pull request; their number is the add count plus the configured entries |
| ReconcileFacts.RemovalsInOrder | src/lib.rs:20-27 | the removal of entry `i` is the call numbered by the configured entries before it, so removals follow list order |
| ReconcileFacts.RemovalsEffect | src/lib.rs:20-27 | accepted removals take exactly the configured names off the issue |
| ReconcileFacts.RemovalsElsewhere | src/lib.rs:20-27 | accepted removals leave every other issue's labels as they were |
| ReconcileFacts.FinalLabels | src/lib.rs:13-27 | with every call accepted, the issue ends with (initial labels plus the set label) minus the removed names, and every other issue is unchanged |
| ReconcileFacts.FinalLabelsCorollaries | src/lib.rs:13-27 | with every call accepted, no removed name survives, and the set label is present exactly when no remove entry names it |
| ReconcileFacts.PlanIdempotent | src/lib.rs:13-27 | running the same plan twice, all accepted, leaves every issue's labels as running it once does |
| ReconcileFacts.AllAcceptedSendsPlan | src/lib.rs:13-29 | when the server accepts them all, every intended call is made, in order, and the run succeeds |
| ReconcileFacts.FirstFailureAborts | src/lib.rs:17-25 | when call `f` is the first refused one, the calls made are exactly the intended ones up to and including `f`, and only those before it take effect |
| Action.Prepare | src/main.rs:83-154 | what a run decides before any label call; `Action.PrepareMeaning`, `Action.NonPullRequest` and `Action.ErrorPrecedence` state when it fails, when it does nothing, and which job it chooses |
| Action.RunAction | src/main.rs:63-165 | a run that fails before the label step, or that is not on a pull request, makes no API call; otherwise its calls, their effect and its error are those of sending the chosen job's calls in order |
| Action.PrepareMeaning | src/main.rs:83-154 | the run reaches the label step exactly when the ref is a valid pull-request merge ref, the repository name splits in two, the client is built, and the report parses; the job is then that issue and the plan for the report's category |
| Action.BreakingScenario | src/main.rs:129-162 | a breaking change, with only the breaking and patch labels configured, adds the breaking label and then removes the patch label, nothing else |

## Left out

- Reading the environment (`src/main.rs:65-79`) is left out; the values become the fields of `Action.Inputs`.
- The `expect` panics on missing variables and the `main` default for `GITHUB_BASE_REF` are left out.
- Building the API client (`src/main.rs:107-113`) is left out. Only whether it succeeded is modelled, as `clientReady`.
- HTTPS calls, `block_on` and async execution (`src/main.rs:156-162`) are left out. Each API call is one step on `Reconcile.Remote`.
- `Reconcile.Remote`: whether the server accepts a call is an input (the `rejected` log positions), not a model of the API. A refused call is assumed to change no label. The model also does not assume that removing an absent label succeeds.
- The temporary directory of `run` (`src/main.rs:193-194`), `determine_base_sha`, `prepare_directories` (both copies), `copy_dir` and `run_analysis` (`src/main.rs:218-289`, `src/lib.rs:32-76`) are left out. They are subprocess and filesystem plumbing. Their failures, and unreadable analyzer output, arrive as `Err` in the `analysis` parameter of `Action.RunAction`.
- Byte-level JSON decoding, UTF-8 handling and the `println!` logging are left out. The report is an already-parsed `Serde.Json` tree, so a JSON syntax error is an `Err` of `analysis`.
- Error messages and `anyhow` context strings are left out. Errors are datatype constructors that name the failing step.
- `Serde`: only what the derived code checks is modelled. The text of `serde`'s error messages is not. A struct missing several fields reports the first missing one in declaration order.
- `Reconcile.SetAndRemoveLabels`: the source's two copies, in `src/lib.rs` and `src/main.rs`, are identical, so they are modelled once.
- `LabelPlan`: a count-preserving (multiset) statement that the set label and the three removed slots together cover the four categories is not stated. `LabelPlan.SelectPlanMeaning` and `LabelPlan.OthersAreThree` state the same facts slot by slot.

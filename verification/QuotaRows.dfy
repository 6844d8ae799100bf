/** Quota snapshots: their validation, and the table in which one provider's rows are replaced together. */
module QuotaRows {
  import opened Wrappers
  import opened Text

  datatype Status = Available | Unknown

  datatype Snapshot = Snapshot(
    provider: string, bucketId: string, status: Status, source: string, updatedAt: int,
    groupDisplay: Option<string>, bucketDisplay: Option<string>, window: Option<string>,
    remaining: Option<real>, used: Option<real>, resetAt: Option<int>, errorCategory: Option<string>)

  datatype QuotaError = Invalid | MixedProviders | StorageFailed

  /* Validation */

  function ValidateText(s: string, limit: nat): Result<string, QuotaError> {
    var out := Strip(s);
    if out == [] || |out| > limit || HasControl(out) then Failure(Invalid) else Success(out)
  }

  function ValidateName(s: string): Result<string, QuotaError> {
    var out :- ValidateText(s, 128);
    if IsSlug(Lower(out)) then Success(Lower(out)) else Failure(Invalid)
  }

  type Check = string -> Result<string, QuotaError>

  function Label(limit: nat): Check {
    s => ValidateText(s, limit)
  }

  const NAME: Check := s => ValidateName(s)

  function IfPresent(check: Check, s: Option<string>): Result<Option<string>, QuotaError> {
    if s.None? then Success(None)
    else
      var out :- check(s.value);
      Success(Some(out))
  }

  /** An empty category counts as absent. */
  function IfNonEmpty(check: Check, s: Option<string>): Result<Option<string>, QuotaError> {
    if s == Some("") then Success(None) else IfPresent(check, s)
  }

  predicate IsRatio(x: Option<real>) {
    x.Some? ==> 0.0 <= x.value <= 1.0
  }

  predicate SumToOne(remaining: Option<real>, used: Option<real>) {
    remaining.Some? && used.Some? ==> -0.000001 <= remaining.value + used.value - 1.0 <= 0.000001
  }

  /** An unknown quota has neither ratios nor a reset time; an available one has a ratio. */
  predicate ValidNumbers(s: Snapshot) {
    && IsRatio(s.remaining) && IsRatio(s.used) && SumToOne(s.remaining, s.used)
    && (s.status.Unknown? ==> s.remaining.None? && s.used.None? && s.resetAt.None?)
    && (s.status.Available? ==> s.remaining.Some? || s.used.Some?)
  }

  function CheckFields(name: Check, id: Check, display: Check, window: Check, s: Snapshot): Result<Snapshot, QuotaError> {
    var provider :- name(s.provider);
    var bucketId :- id(s.bucketId);
    var source :- name(s.source);
    var groupDisplay :- IfPresent(display, s.groupDisplay);
    var bucketDisplay :- IfPresent(display, s.bucketDisplay);
    var frame :- IfPresent(window, s.window);
    var errorCategory :- IfNonEmpty(name, s.errorCategory);
    if !ValidNumbers(s) then Failure(Invalid)
    else Success(s.(provider := provider, bucketId := bucketId, source := source, groupDisplay := groupDisplay,
                    bucketDisplay := bucketDisplay, window := frame, errorCategory := errorCategory))
  }

  function Validate(s: Snapshot): Result<Snapshot, QuotaError> {
    CheckFields(NAME, Label(256), Label(256), Label(128), s)
  }

  /* Exactly what is accepted, on what was given */

  /** Text that is not blank and, without the white space around it, printable and within the limit. */
  predicate IsGivenText(s: string, limit: nat) {
    !AllSpace(s) && |Strip(s)| <= limit && forall i :: 0 <= i < |Strip(s)| ==> Strip(s)[i] >= ' ' && Strip(s)[i] != '\U{7f}'
  }

  predicate IsGivenName(s: string) {
    IsGivenText(s, 128) && IsSlug(Lower(Strip(s)))
  }

  predicate IsGivenLabel(s: Option<string>, limit: nat) {
    s.Some? ==> IsGivenText(s.value, limit)
  }

  predicate HasRatio(s: Snapshot) {
    s.remaining.Some? || s.used.Some?
  }

  function StrippedLabel(s: Option<string>): Option<string> {
    if s.None? then None else Some(Strip(s.value))
  }

  lemma TextIsAccepted(s: string, limit: nat)
    ensures ValidateText(s, limit) == if IsGivenText(s, limit) then Success(Strip(s)) else Failure(Invalid)
  {
    StripIsEmptyIff(s);
  }

  lemma NameIsAccepted(s: string)
    ensures NAME(s) == if IsGivenName(s) then Success(Lower(Strip(s))) else Failure(Invalid)
  {
    TextIsAccepted(s, 128);
  }

  lemma BucketIsAccepted(s: string)
    ensures Label(256)(s) == if IsGivenText(s, 256) then Success(Strip(s)) else Failure(Invalid)
  {
    TextIsAccepted(s, 256);
  }

  lemma LabelIsAccepted(s: Option<string>, limit: nat)
    ensures IfPresent(Label(limit), s) == if IsGivenLabel(s, limit) then Success(StrippedLabel(s)) else Failure(Invalid)
  {
    if s.Some? {
      TextIsAccepted(s.value, limit);
    }
  }

  /**
   A snapshot is accepted exactly if its names and labels are, its ratios lie between zero and one and sum to one
   within a millionth if both are there, an unknown quota has neither them nor a reset time, and an available one has
   one of them. Names lose their case, and names and labels the white space around them; nothing else changes.
   */
  lemma AcceptedIff(s: Snapshot)
    ensures Validate(s).Success? <==>
              && IsGivenName(s.provider) && IsGivenText(s.bucketId, 256) && IsGivenName(s.source)
              && IsGivenLabel(s.groupDisplay, 256) && IsGivenLabel(s.bucketDisplay, 256) && IsGivenLabel(s.window, 128)
              && (s.errorCategory.None? || s.errorCategory == Some("") || IsGivenName(s.errorCategory.value))
              && (s.remaining.Some? ==> 0.0 <= s.remaining.value <= 1.0) && (s.used.Some? ==> 0.0 <= s.used.value <= 1.0)
              && (s.remaining.Some? && s.used.Some? ==> 0.999999 <= s.remaining.value + s.used.value <= 1.000001)
              && (if s.status.Unknown? then !HasRatio(s) && s.resetAt.None? else HasRatio(s))
    ensures Validate(s).Success? ==>
              Validate(s).value == s.(
                provider := Lower(Strip(s.provider)), bucketId := Strip(s.bucketId), source := Lower(Strip(s.source)),
                groupDisplay := StrippedLabel(s.groupDisplay), bucketDisplay := StrippedLabel(s.bucketDisplay),
                window := StrippedLabel(s.window),
                errorCategory := if s.errorCategory.None? || s.errorCategory == Some("") then None
                                 else Some(Lower(Strip(s.errorCategory.value))))
  {
    hide IsGivenText, Strip, Lower, IsSlug, NAME, Label;
    NameIsAccepted(s.provider);
    NameIsAccepted(s.source);
    BucketIsAccepted(s.bucketId);
    LabelIsAccepted(s.groupDisplay, 256);
    LabelIsAccepted(s.bucketDisplay, 256);
    LabelIsAccepted(s.window, 128);
    if s.errorCategory.Some? {
      NameIsAccepted(s.errorCategory.value);
    }
  }

  /** A check whose results pass it unchanged and are not empty. */
  ghost predicate Settles(check: Check) {
    forall s :: check(s).Success? ==> check(check(s).value) == check(s) && check(s).value != ""
  }

  lemma TextSettles(limit: nat)
    ensures Settles(Label(limit))
  {
    forall s | ValidateText(s, limit).Success?
      ensures ValidateText(ValidateText(s, limit).value, limit) == ValidateText(s, limit) && Strip(s) != ""
    {
      StripIsStripped(s);
      StripOfStripped(Strip(s));
    }
  }

  lemma SlugPasses(name: string)
    requires IsSlug(name) && |name| <= 128
    ensures ValidateName(name) == Success(name)
  {
    SlugIsNormal(name);
    StripOfStripped(name);
  }

  lemma NameIsSlug(s: string)
    requires ValidateName(s).Success?
    ensures IsSlug(ValidateName(s).value) && |ValidateName(s).value| <= 128
  {
  }

  lemma NameSettles()
    ensures Settles(NAME)
  {
    forall s | ValidateName(s).Success?
      ensures ValidateName(ValidateName(s).value) == ValidateName(s) && ValidateName(s).value != ""
    {
      NameIsSlug(s);
      SlugPasses(ValidateName(s).value);
    }
  }

  lemma FieldsSettle(name: Check, id: Check, display: Check, window: Check, s: Snapshot)
    requires Settles(name) && Settles(id) && Settles(display) && Settles(window)
    requires CheckFields(name, id, display, window, s).Success?
    ensures var r := CheckFields(name, id, display, window, s);
            CheckFields(name, id, display, window, r.value) == r
  {
  }

  /**
   A stored snapshot names a provider and a bucket, its ratios lie between zero and one and, if both are
   there, sum to one; an unknown quota claims nothing and an available one claims something.
   */
  predicate IsConsistent(r: Snapshot) {
    && IsSlug(r.provider) && |r.provider| <= 128 && 0 < |r.bucketId| <= 256
    && (r.remaining.Some? ==> 0.0 <= r.remaining.value <= 1.0) && (r.used.Some? ==> 0.0 <= r.used.value <= 1.0)
    && (r.remaining.Some? && r.used.Some? ==> 0.999999 <= r.remaining.value + r.used.value <= 1.000001)
    && (r.status.Unknown? <==> r.remaining.None? && r.used.None?) && (r.status.Unknown? ==> r.resetAt.None?)
  }

  lemma AcceptedIsConsistent(s: Snapshot)
    requires Validate(s).Success?
    ensures IsConsistent(Validate(s).value)
  {
    NameIsSlug(s.provider);
  }

  /** Validation gives the stored form, which is valid as it stands. */
  lemma ValidatedIsSettled(s: Snapshot)
    requires Validate(s).Success?
    ensures Validate(Validate(s).value) == Validate(s)
  {
    NameSettles();
    TextSettles(256);
    TextSettles(128);
    FieldsSettle(NAME, Label(256), Label(256), Label(128), s);
  }

  /* The table */

  function OfProvider(rows: seq<Snapshot>, provider: string): seq<Snapshot> {
    if rows == [] then []
    else if rows[0].provider == provider then [rows[0]] + OfProvider(rows[1..], provider)
    else OfProvider(rows[1..], provider)
  }

  function Without(rows: seq<Snapshot>, provider: string): seq<Snapshot> {
    if rows == [] then []
    else if rows[0].provider == provider then Without(rows[1..], provider)
    else [rows[0]] + Without(rows[1..], provider)
  }

  predicate HasRow(rows: seq<Snapshot>, provider: string, bucketId: string) {
    exists i :: 0 <= i < |rows| && rows[i].provider == provider && rows[i].bucketId == bucketId
  }

  predicate AllOf(rows: seq<Snapshot>, provider: string) {
    forall i :: 0 <= i < |rows| ==> rows[i].provider == provider
  }

  predicate DistinctBuckets(rows: seq<Snapshot>) {
    forall i, j :: 0 <= i < j < |rows| ==> rows[i].bucketId != rows[j].bucketId
  }

  type RowCheck = Snapshot -> Result<Snapshot, QuotaError>

  const VALIDATE: RowCheck := s => Validate(s)

  function CheckAll(check: RowCheck, items: seq<Snapshot>): (r: Result<seq<Snapshot>, QuotaError>)
    ensures r.Success? <==> forall i :: 0 <= i < |items| ==> check(items[i]).Success?
    ensures r.Success? ==> |r.value| == |items| && forall i :: 0 <= i < |items| ==> check(items[i]) == Success(r.value[i])
  {
    if items == [] then Success([])
    else if CheckAll(check, items[..|items| - 1]).Failure? then
      assert CheckAll(check, items[..|items| - 1]).Failure?;
      Failure(Invalid)
    else if check(items[|items| - 1]).Failure? then Failure(Invalid)
    else Success(CheckAll(check, items[..|items| - 1]).value + [check(items[|items| - 1]).value])
  }

  /** One insertion after another, failing on a key that is there already. */
  function Insert(rows: seq<Snapshot>, items: seq<Snapshot>): Result<seq<Snapshot>, QuotaError>
    decreases |items|
  {
    if items == [] then Success(rows)
    else if HasRow(rows, items[0].provider, items[0].bucketId) then Failure(StorageFailed)
    else Insert(rows + [items[0]], items[1..])
  }

  /** The answer of a call and the table it leaves. */
  datatype Written = Written(answer: Result<seq<Snapshot>, QuotaError>, rows: seq<Snapshot>)

  function WriteValid(rows: seq<Snapshot>, valid: seq<Snapshot>, commits: bool): Written {
    if valid == [] then Written(Success([]), rows)
    else if !AllOf(valid, valid[0].provider) then Written(Failure(MixedProviders), rows)
    else
      var inserted := Insert(Without(rows, valid[0].provider), valid);
      if inserted.Success? && commits then Written(Success(valid), inserted.value)
      else Written(Failure(StorageFailed), rows)
  }

  function WriteMany(rows: seq<Snapshot>, snapshots: seq<Snapshot>, commits: bool): Written {
    var valid := CheckAll(VALIDATE, snapshots);
    if valid.Failure? then Written(Failure(Invalid), rows) else WriteValid(rows, valid.value, commits)
  }

  lemma {:induction false} OfProviderConcat(a: seq<Snapshot>, b: seq<Snapshot>, provider: string)
    ensures OfProvider(a + b, provider) == OfProvider(a, provider) + OfProvider(b, provider)
  {
    if a == [] {
      assert a + b == b;
    } else {
      assert (a + b)[1..] == a[1..] + b;
      OfProviderConcat(a[1..], b, provider);
    }
  }

  lemma {:induction false} OfProviderWithout(rows: seq<Snapshot>, removed: string, provider: string)
    ensures OfProvider(Without(rows, removed), provider) == if provider == removed then [] else OfProvider(rows, provider)
  {
    if rows != [] {
      OfProviderWithout(rows[1..], removed, provider);
      if rows[0].provider != removed {
        assert Without(rows, removed)[1..] == Without(rows[1..], removed);
      }
    }
  }

  lemma {:induction false} OfProviderAll(rows: seq<Snapshot>, of: string, provider: string)
    requires AllOf(rows, of)
    ensures OfProvider(rows, provider) == if provider == of then rows else []
  {
    if rows != [] {
      OfProviderAll(rows[1..], of, provider);
    }
  }

  lemma {:induction false} WithoutHasNone(rows: seq<Snapshot>, provider: string)
    ensures forall i :: 0 <= i < |Without(rows, provider)| ==>
              Without(rows, provider)[i] in rows && Without(rows, provider)[i].provider != provider
  {
    if rows != [] {
      WithoutHasNone(rows[1..], provider);
    }
  }

  /** Insertion succeeds exactly if no bucket comes twice, and then appends. */
  lemma {:induction false} InsertAppends(rows: seq<Snapshot>, done: seq<Snapshot>, items: seq<Snapshot>, provider: string)
    requires forall i :: 0 <= i < |rows| ==> rows[i].provider != provider
    requires AllOf(done + items, provider) && DistinctBuckets(done)
    ensures Insert(rows + done, items).Success? <==> DistinctBuckets(done + items)
    ensures Insert(rows + done, items).Success? ==> Insert(rows + done, items) == Success(rows + (done + items))
    decreases |items|
  {
    if items == [] {
      assert done + items == done;
    } else {
      var row := items[0];
      assert (done + items)[|done|] == row;
      assert done + items == (done + [row]) + items[1..];
      assert rows + done + [row] == rows + (done + [row]);
      if HasRow(rows + done, row.provider, row.bucketId) {
        var i :| 0 <= i < |rows + done| && (rows + done)[i].provider == provider && (rows + done)[i].bucketId == row.bucketId;
        var j := i - |rows|;
        assert (rows + done)[i] == done[j] && (done + items)[j] == done[j];
      } else {
        forall j | 0 <= j < |done| ensures done[j].bucketId != row.bucketId {
          assert (rows + done)[|rows| + j] == done[j];
          assert (done + items)[j] == done[j];
        }
        InsertAppends(rows, done + [row], items[1..], provider);
      }
    }
  }

  /**
   A write of valid rows succeeds exactly if they are one provider's, with no bucket twice, and the
   transaction commits; it then replaces that provider's rows and leaves every other's.
   */
  lemma WriteValidReplaces(rows: seq<Snapshot>, valid: seq<Snapshot>, commits: bool, other: string)
    requires valid != []
    ensures var w, p := WriteValid(rows, valid, commits), valid[0].provider;
            && (w.answer.Success? <==> AllOf(valid, p) && DistinctBuckets(valid) && commits)
            && (w.answer.Success? ==> w.answer.value == valid && OfProvider(w.rows, p) == valid)
            && (w.answer.Failure? ==> w.answer.error == if AllOf(valid, p) then StorageFailed else MixedProviders)
            && (w.answer.Failure? ==> w.rows == rows)
            && (other != p ==> OfProvider(w.rows, other) == OfProvider(rows, other))
  {
    var p := valid[0].provider;
    var kept := Without(rows, p);
    if AllOf(valid, p) {
      WithoutHasNone(rows, p);
      assert kept + [] == kept && [] + valid == valid;
      InsertAppends(kept, [], valid, p);
      forall q ensures OfProvider(kept + valid, q) == if q == p then valid else OfProvider(rows, q) {
        OfProviderConcat(kept, valid, q);
        OfProviderWithout(rows, p, q);
        OfProviderAll(valid, p, q);
      }
    }
  }

  ghost predicate AllSettled(check: RowCheck, rows: seq<Snapshot>) {
    forall i :: 0 <= i < |rows| ==> check(rows[i]) == Success(rows[i])
  }

  /** What every write keeps: each row is in stored form, and no provider has two rows for a bucket. */
  ghost predicate TableIsValid(check: RowCheck, rows: seq<Snapshot>) {
    AllSettled(check, rows) && forall p :: DistinctBuckets(OfProvider(rows, p))
  }

  lemma TableIsConsistent(rows: seq<Snapshot>)
    requires TableIsValid(VALIDATE, rows)
    ensures forall i :: 0 <= i < |rows| ==> IsConsistent(rows[i])
  {
    forall i | 0 <= i < |rows| ensures IsConsistent(rows[i]) {
      assert VALIDATE(rows[i]) == Success(rows[i]);
      AcceptedIsConsistent(rows[i]);
    }
  }

  lemma WriteValidKeepsTable(check: RowCheck, rows: seq<Snapshot>, valid: seq<Snapshot>, commits: bool)
    requires TableIsValid(check, rows) && AllSettled(check, valid)
    ensures TableIsValid(check, WriteValid(rows, valid, commits).rows)
  {
    var w := WriteValid(rows, valid, commits);
    if w.answer.Success? && valid != [] {
      var kept := Without(rows, valid[0].provider);
      WithoutHasNone(rows, valid[0].provider);
      assert kept + [] == kept && [] + valid == valid;
      InsertAppends(kept, [], valid, valid[0].provider);
      forall q ensures DistinctBuckets(OfProvider(w.rows, q)) {
        WriteValidReplaces(rows, valid, commits, q);
      }
    }
  }

  lemma ValidatedAreSettled(snapshots: seq<Snapshot>)
    requires CheckAll(VALIDATE, snapshots).Success?
    ensures AllSettled(VALIDATE, CheckAll(VALIDATE, snapshots).value)
  {
    var valid := CheckAll(VALIDATE, snapshots).value;
    forall i | 0 <= i < |valid| ensures VALIDATE(valid[i]) == Success(valid[i]) {
      assert VALIDATE(snapshots[i]) == Success(valid[i]);
      ValidatedIsSettled(snapshots[i]);
    }
  }

  lemma WriteKeepsTableValid(rows: seq<Snapshot>, snapshots: seq<Snapshot>, commits: bool)
    requires TableIsValid(VALIDATE, rows)
    ensures TableIsValid(VALIDATE, WriteMany(rows, snapshots, commits).rows)
  {
    if CheckAll(VALIDATE, snapshots).Success? {
      ValidatedAreSettled(snapshots);
      WriteValidKeepsTable(VALIDATE, rows, CheckAll(VALIDATE, snapshots).value, commits);
    }
  }

  /* The store */

  method ValidateRows(check: RowCheck, snapshots: seq<Snapshot>) returns (valid: Result<seq<Snapshot>, QuotaError>)
    ensures valid == CheckAll(check, snapshots)
  {
    var items := [];
    for i := 0 to |snapshots|
      invariant CheckAll(check, snapshots[..i]) == Success(items)
    {
      assert snapshots[..i + 1][..i] == snapshots[..i];
      var item := check(snapshots[i]);
      if item.Failure? {
        return Failure(Invalid);
      }
      items := items + [item.value];
    }
    assert snapshots[..|snapshots|] == snapshots;
    valid := Success(items);
  }

  class QuotaStore {
    var rows: seq<Snapshot>

    constructor ()
      ensures rows == []
    {
      rows := [];
    }

    /** One transaction: the provider's rows are deleted and the new ones inserted, or nothing changes. */
    method StoreRows(valid: seq<Snapshot>, commits: bool) returns (answer: Result<seq<Snapshot>, QuotaError>)
      modifies this
      ensures Written(answer, rows) == WriteValid(old(rows), valid, commits)
    {
      if valid == [] {
        return Success([]);
      }
      var provider := valid[0].provider;
      if !AllOf(valid, provider) {
        return Failure(MixedProviders);
      }
      var before := rows;
      rows := Without(rows, provider);
      for i := 0 to |valid|
        invariant Insert(rows, valid[i..]) == Insert(Without(before, provider), valid)
      {
        if HasRow(rows, valid[i].provider, valid[i].bucketId) {
          rows := before;
          return Failure(StorageFailed);
        }
        assert valid[i..][1..] == valid[i + 1..];
        rows := rows + [valid[i]];
      }
      if !commits {
        rows := before;
        return Failure(StorageFailed);
      }
      answer := Success(valid);
    }

    /** `commits` says whether the database lets the transaction commit. */
    method WriteRows(snapshots: seq<Snapshot>, commits: bool) returns (answer: Result<seq<Snapshot>, QuotaError>)
      modifies this
      ensures Written(answer, rows) == WriteMany(old(rows), snapshots, commits)
    {
      var valid := ValidateRows(VALIDATE, snapshots);
      if valid.Failure? {
        return Failure(Invalid);
      }
      answer := StoreRows(valid.value, commits);
    }

    method ReadRows(provider: string) returns (answer: Result<seq<Snapshot>, QuotaError>)
      ensures answer.Success? <==> NAME(provider).Success?
      ensures answer.Success? ==> answer.value == OfProvider(rows, NAME(provider).value)
    {
      var name :- NAME(provider);
      var found := [];
      assert rows[0..] == rows;
      for i := 0 to |rows|
        invariant found + OfProvider(rows[i..], name) == OfProvider(rows, name)
      {
        assert rows[i..][1..] == rows[i + 1..];
        if rows[i].provider == name {
          found := found + [rows[i]];
        }
      }
      answer := Success(found);
    }
  }
}

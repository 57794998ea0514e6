/**
 * The three deal-insertion scripts (`insert-deals.js` and its jan16 and
 * jan23 copies): `validateDeal`, the "validate every deal, then insert"
 * gate in `main`, the outcome `insertDeal` reports, and the result tally
 * behind the exit code. The three copies share `validateDeal` and the
 * validate-then-insert gate; they differ in what happens to a deal whose
 * company already exists.
 */
module Deals {
  import opened Json

  // ---------------------------------------------------------------------
  // validateDeal
  // ---------------------------------------------------------------------

  /** The messages `validateDeal` collects, one constructor per message. */
  datatype Issue =
    | CompanyRequired
    | DescriptionRequired
    | HqRequired
    | RoundRequired
    | AmountNotNumber
    | MonthRequired
    | YearRequired
    | SectorsRequired
    | InvestorsRequired
    | FoundersRequired
    | FounderIsString(index: nat)
    | FounderNameRequired(index: nat)
    | NewsUrlMissing

  /** Only the message starting with `news_url` is a warning; every other one blocks. */
  predicate Blocks(e: Issue) {
    !e.NewsUrlMissing?
  }

  /**
   * A deal literal of the `DEALS` array, one field per key the scripts
   * read; a key the literal leaves out holds `Undefined`.
   */
  datatype Deal = Deal(
    company: JsVal,
    description: JsVal,
    website: JsVal,
    hq: JsVal,
    round: JsVal,
    amount: JsVal,
    month: JsVal,
    year: JsVal,
    sectors: JsVal,
    investors: JsVal,
    founders: JsVal,
    newsUrl: JsVal,
    newsSummary: JsVal)

  /** `amount` may be null, undefined or any number. */
  predicate AmountOk(v: JsVal) {
    v.Null? || v.Undefined? || v.Num?
  }

  /** `year` must be a truthy number, that is a non-zero one. */
  predicate YearOk(v: JsVal) {
    v.Num? && v.n != 0.0
  }

  /** `Array.isArray(v) && v.length !== 0`. */
  predicate NonEmptyArray(v: JsVal) {
    v.Arr? && |v.elems| > 0
  }

  /** A founder entry `{name, linkedin?}` whose name is a non-empty string. */
  predicate WellFormedFounder(f: JsVal) {
    f.Obj? && NonEmptyString(Get(f.fields, "name"))
  }

  /** Reading `f.name` of `null` or `undefined` throws a TypeError. */
  predicate Unreadable(f: JsVal) {
    f.Null? || f.Undefined?
  }

  /** The founders array, or no founders when the field is not an array. */
  function Founders(deal: Deal): seq<JsVal> {
    if deal.founders.Arr? then deal.founders.elems else []
  }

  /** The top-level field checks, all of which a valid deal passes. */
  predicate FieldsValid(deal: Deal) {
    && NonEmptyString(deal.company)
    && NonEmptyString(deal.description)
    && NonEmptyString(deal.hq)
    && NonEmptyString(deal.round)
    && AmountOk(deal.amount)
    && NonEmptyString(deal.month)
    && YearOk(deal.year)
    && NonEmptyArray(deal.sectors)
    && NonEmptyArray(deal.investors)
    && NonEmptyArray(deal.founders)
  }

  /**
   * The deal `validateDeal` accepts: required non-empty strings, a
   * number-or-null amount, a non-zero numeric year, non-empty sectors,
   * investors and founders arrays, and well-formed founders.
   */
  predicate Valid(deal: Deal) {
    FieldsValid(deal) && forall f :: f in Founders(deal) ==> WellFormedFounder(f)
  }

  /** `validateDeal` never returns: a founder entry is null or undefined. */
  predicate Throws(deal: Deal) {
    exists i :: 0 <= i < |Founders(deal)| && Unreadable(Founders(deal)[i])
  }

  function When(c: bool, e: Issue): seq<Issue> {
    if c then [e] else []
  }

  /**
   * The top-level checks in the order `validateDeal` makes them: whether
   * each one passes, and the issue it pushes when it fails.
   */
  function Checks(deal: Deal): (cs: seq<(bool, Issue)>)
    ensures |cs| == 10
  {
    [ (NonEmptyString(deal.company), CompanyRequired),
      (NonEmptyString(deal.description), DescriptionRequired),
      (NonEmptyString(deal.hq), HqRequired),
      (NonEmptyString(deal.round), RoundRequired),
      (AmountOk(deal.amount), AmountNotNumber),
      (NonEmptyString(deal.month), MonthRequired),
      (YearOk(deal.year), YearRequired),
      (NonEmptyArray(deal.sectors), SectorsRequired),
      (NonEmptyArray(deal.investors), InvestorsRequired),
      (NonEmptyArray(deal.founders), FoundersRequired) ]
  }

  /** The issues of the failed checks, in order. */
  function Failing(cs: seq<(bool, Issue)>): seq<Issue> {
    if cs == [] then [] else Failing(cs[..|cs| - 1]) + When(!cs[|cs| - 1].0, cs[|cs| - 1].1)
  }

  /** The issues of the top-level checks, in the order they are pushed. */
  function FieldIssues(deal: Deal): seq<Issue> {
    Failing(Checks(deal))
  }

  /** The issue of founder `i`: a plain string, or an entry without a string name. */
  function FounderIssue(f: JsVal, i: nat): seq<Issue> {
    if f.Str? then [FounderIsString(i)]
    else if !WellFormedFounder(f) then [FounderNameRequired(i)]
    else []
  }

  /** The issues of the first `n` founders. */
  function FounderIssues(fs: seq<JsVal>, n: nat): seq<Issue>
    requires n <= |fs|
  {
    if n == 0 then [] else FounderIssues(fs, n - 1) + FounderIssue(fs[n - 1], n - 1)
  }

  /** Every issue `validateDeal` collects for a deal it does not throw on. */
  function IssuesOf(deal: Deal): seq<Issue> {
    FieldIssues(deal)
    + FounderIssues(Founders(deal), |Founders(deal)|)
    + When(!Truthy(deal.newsUrl), NewsUrlMissing)
  }

  /** The blocking issues, `errors.filter(e => !e.startsWith('news_url'))`. */
  function Blocking(es: seq<Issue>): (r: seq<Issue>)
    ensures forall e :: e in r <==> e in es && Blocks(e)
    ensures |r| <= |es|
  {
    if es == [] then []
    else (if Blocks(es[0]) then [es[0]] else []) + Blocking(es[1..])
  }

  datatype Validation = Returned(valid: bool) | Threw

  /**
   * What a call of `validateDeal` amounts to: an exception on an
   * unreadable founder, otherwise whether the deal is valid (that this is
   * the absence of blocking issues is `ValidationMeaning`).
   */
  function ValidationOf(deal: Deal): Validation {
    if Throws(deal) then Threw else Returned(Valid(deal))
  }

  /**
   * The top-level checks of `validateDeal`; each `if (check fails)
   * errors.push(issue)` appends `When(check fails, issue)`.
   */
  method CheckFields(deal: Deal) returns (errors: seq<Issue>)
    ensures errors == FieldIssues(deal)
  {
    ghost var done: seq<(bool, Issue)> := [];
    errors := [];
    FailingPush(done, (NonEmptyString(deal.company), CompanyRequired));
    done := done + [(NonEmptyString(deal.company), CompanyRequired)];
    errors := errors + When(!NonEmptyString(deal.company), CompanyRequired);
    FailingPush(done, (NonEmptyString(deal.description), DescriptionRequired));
    done := done + [(NonEmptyString(deal.description), DescriptionRequired)];
    errors := errors + When(!NonEmptyString(deal.description), DescriptionRequired);
    FailingPush(done, (NonEmptyString(deal.hq), HqRequired));
    done := done + [(NonEmptyString(deal.hq), HqRequired)];
    errors := errors + When(!NonEmptyString(deal.hq), HqRequired);
    FailingPush(done, (NonEmptyString(deal.round), RoundRequired));
    done := done + [(NonEmptyString(deal.round), RoundRequired)];
    errors := errors + When(!NonEmptyString(deal.round), RoundRequired);
    FailingPush(done, (AmountOk(deal.amount), AmountNotNumber));
    done := done + [(AmountOk(deal.amount), AmountNotNumber)];
    errors := errors + When(!AmountOk(deal.amount), AmountNotNumber);
    FailingPush(done, (NonEmptyString(deal.month), MonthRequired));
    done := done + [(NonEmptyString(deal.month), MonthRequired)];
    errors := errors + When(!NonEmptyString(deal.month), MonthRequired);
    FailingPush(done, (YearOk(deal.year), YearRequired));
    done := done + [(YearOk(deal.year), YearRequired)];
    errors := errors + When(!YearOk(deal.year), YearRequired);
    FailingPush(done, (NonEmptyArray(deal.sectors), SectorsRequired));
    done := done + [(NonEmptyArray(deal.sectors), SectorsRequired)];
    errors := errors + When(!NonEmptyArray(deal.sectors), SectorsRequired);
    FailingPush(done, (NonEmptyArray(deal.investors), InvestorsRequired));
    done := done + [(NonEmptyArray(deal.investors), InvestorsRequired)];
    errors := errors + When(!NonEmptyArray(deal.investors), InvestorsRequired);
    FailingPush(done, (NonEmptyArray(deal.founders), FoundersRequired));
    done := done + [(NonEmptyArray(deal.founders), FoundersRequired)];
    errors := errors + When(!NonEmptyArray(deal.founders), FoundersRequired);
    assert done == Checks(deal);
  }

  /** One more check: its issue comes after those of the earlier ones. */
  lemma FailingPush(cs: seq<(bool, Issue)>, c: (bool, Issue))
    ensures Failing(cs + [c]) == Failing(cs) + When(!c.0, c.1)
  {
    assert (cs + [c])[..|cs|] == cs;
  }

  /**
   * The loop over the founders array: push the issue of each entry in
   * turn; reading `f.name` on a null or undefined entry throws.
   */
  method CheckFounders(fs: seq<JsVal>, errorsIn: seq<Issue>) returns (threw: bool, errors: seq<Issue>)
    ensures threw <==> exists i :: 0 <= i < |fs| && Unreadable(fs[i])
    ensures !threw ==> errors == errorsIn + FounderIssues(fs, |fs|)
  {
    errors := errorsIn;
    var i := 0;
    while i < |fs|
      invariant 0 <= i <= |fs|
      invariant forall j :: 0 <= j < i ==> !Unreadable(fs[j])
      invariant errors == errorsIn + FounderIssues(fs, i)
    {
      var f := fs[i];
      if f.Str? {
        errors := errors + [FounderIsString(i)];
      } else if Unreadable(f) {
        // `f.name` on null or undefined
        return true, errors;
      } else if !WellFormedFounder(f) {
        errors := errors + [FounderNameRequired(i)];
      }
      i := i + 1;
    }
    threw := false;
  }

  /**
   * `validateDeal`: push one issue per failed check, then report validity
   * as the absence of blocking issues; the issues are returned alongside
   * (the script prints them).
   */
  method ValidateDeal(deal: Deal) returns (v: Validation, errors: seq<Issue>)
    ensures v == ValidationOf(deal)
    ensures v.Returned? ==> errors == IssuesOf(deal) && (v.valid <==> |Blocking(errors)| == 0)
  {
    errors := CheckFields(deal);

    // `deal.founders && Array.isArray(deal.founders)`: an array is truthy.
    if deal.founders.Arr? {
      var threw;
      threw, errors := CheckFounders(deal.founders.elems, errors);
      if threw {
        assert Founders(deal) == deal.founders.elems;
        return Threw, errors;
      }
    } else {
      assert errors == FieldIssues(deal) + FounderIssues(Founders(deal), 0);
    }

    if !Truthy(deal.newsUrl) {
      errors := errors + [NewsUrlMissing];
    }
    assert errors == IssuesOf(deal);
    var blocking := Blocking(errors);
    ValidationMeaning(deal);
    v := Returned(|blocking| == 0);
  }

  // ---------------------------------------------------------------------
  // Properties of validateDeal
  // ---------------------------------------------------------------------

  /** The field issues hold no warning, and there are none exactly when the fields are valid. */
  lemma FieldIssuesMeaning(deal: Deal)
    ensures NewsUrlMissing !in FieldIssues(deal)
    ensures FieldIssues(deal) == [] <==> FieldsValid(deal)
  {
    var cs := Checks(deal);
    FailingMeaning(cs);
    assert forall k :: 0 <= k < |cs| ==> Blocks(cs[k].1);
    assert (forall k :: 0 <= k < |cs| ==> cs[k].0) <==> FieldsValid(deal) by {
      if FieldsValid(deal) {
        forall k | 0 <= k < |cs| ensures cs[k].0 {
        }
      } else {
        assert !(cs[0].0 && cs[1].0 && cs[2].0 && cs[3].0 && cs[4].0
                 && cs[5].0 && cs[6].0 && cs[7].0 && cs[8].0 && cs[9].0);
      }
    }
  }

  /**
   * The failed checks leave no issue exactly when every check passes, and
   * every issue left is the issue of some failed check.
   */
  lemma {:induction false} FailingMeaning(cs: seq<(bool, Issue)>)
    ensures Failing(cs) == [] <==> forall k :: 0 <= k < |cs| ==> cs[k].0
    ensures forall e :: e in Failing(cs) ==> exists k :: 0 <= k < |cs| && !cs[k].0 && cs[k].1 == e
    decreases |cs|
  {
    if cs != [] {
      var n := |cs| - 1;
      FailingMeaning(cs[..n]);
      assert forall k :: 0 <= k < n ==> cs[..n][k] == cs[k];
    }
  }

  /** Founder issues are all blocking, and there are none exactly when every founder is well formed. */
  lemma {:induction false} FounderIssuesMeaning(fs: seq<JsVal>, n: nat)
    requires n <= |fs|
    ensures forall e :: e in FounderIssues(fs, n) ==> Blocks(e)
    ensures FounderIssues(fs, n) == [] <==> forall j :: 0 <= j < n ==> WellFormedFounder(fs[j])
  {
    FounderIssuesBlock(fs, n);
    FounderIssuesEmpty(fs, n);
  }

  lemma {:induction false} FounderIssuesBlock(fs: seq<JsVal>, n: nat)
    requires n <= |fs|
    ensures forall e :: e in FounderIssues(fs, n) ==> Blocks(e)
  {
    if n > 0 {
      FounderIssuesBlock(fs, n - 1);
      FounderIssueMeaning(fs[n - 1], n - 1);
    }
  }

  lemma {:induction false} FounderIssuesEmpty(fs: seq<JsVal>, n: nat)
    requires n <= |fs|
    ensures FounderIssues(fs, n) == [] <==> forall j :: 0 <= j < n ==> WellFormedFounder(fs[j])
  {
    if n > 0 {
      FounderIssuesEmpty(fs, n - 1);
      FounderIssueMeaning(fs[n - 1], n - 1);
      var pre, last := FounderIssues(fs, n - 1), FounderIssue(fs[n - 1], n - 1);
      assert FounderIssues(fs, n) == pre + last;
      assert pre + last == [] <==> pre == [] && last == [];
    }
  }

  /** One founder's issue is blocking, and there is none exactly when the founder is well formed. */
  lemma FounderIssueMeaning(f: JsVal, i: nat)
    ensures forall e :: e in FounderIssue(f, i) ==> Blocks(e)
    ensures FounderIssue(f, i) == [] <==> WellFormedFounder(f)
  {
  }

  /**
   * The collected issues hold no blocking one exactly for the deals of
   * `Valid`, and a valid deal never throws: so `validateDeal` returns true
   * exactly for valid deals, false for every other deal whose founders can
   * all be read, and throws only on a null or undefined founder.
   */
  lemma ValidationMeaning(deal: Deal)
    ensures |Blocking(IssuesOf(deal))| == 0 <==> Valid(deal)
    ensures Valid(deal) ==> !Throws(deal)
  {
    var fs := Founders(deal);
    FieldIssuesMeaning(deal);
    FounderIssuesMeaning(fs, |fs|);
    var es := IssuesOf(deal);
    assert (|Blocking(es)| == 0) <==> forall e :: e in es ==> !Blocks(e) by {
      if |Blocking(es)| != 0 {
        assert Blocking(es)[0] in Blocking(es);
      }
    }
    assert (forall f :: f in fs ==> WellFormedFounder(f)) <==>
           (forall j :: 0 <= j < |fs| ==> WellFormedFounder(fs[j])) by {
      if forall j :: 0 <= j < |fs| ==> WellFormedFounder(fs[j]) {
        forall f | f in fs ensures WellFormedFounder(f) {
          var j :| 0 <= j < |fs| && fs[j] == f;
        }
      }
    }
    if Valid(deal) {
      forall i | 0 <= i < |fs| ensures !Unreadable(fs[i]) {
        assert fs[i] in fs;
      }
    }
  }

  /**
   * The checks do not read `website` or `news_summary`, and `news_url`
   * only decides the trailing warning: changing any of them leaves the
   * blocking issues, and so the verdict, as they were.
   */
  lemma UncheckedFieldsIgnored(deal: Deal, x: JsVal)
    ensures IssuesOf(deal.(website := x)) == IssuesOf(deal)
    ensures IssuesOf(deal.(newsSummary := x)) == IssuesOf(deal)
    ensures Blocking(IssuesOf(deal.(newsUrl := x))) == Blocking(IssuesOf(deal))
  {
    var d := deal.(newsUrl := x);
    var core := FieldIssues(deal) + FounderIssues(Founders(deal), |Founders(deal)|);
    assert IssuesOf(d) == core + When(!Truthy(x), NewsUrlMissing);
    assert IssuesOf(deal) == core + When(!Truthy(deal.newsUrl), NewsUrlMissing);
    BlockingWarning(core, !Truthy(x));
    BlockingWarning(core, !Truthy(deal.newsUrl));
  }

  /** A trailing warning does not change the blocking issues. */
  lemma {:induction false} BlockingWarning(es: seq<Issue>, c: bool)
    ensures Blocking(es + When(c, NewsUrlMissing)) == Blocking(es)
    decreases |es|
  {
    if es == [] {
      assert es + When(c, NewsUrlMissing) == When(c, NewsUrlMissing);
    } else {
      assert (es + When(c, NewsUrlMissing))[1..] == es[1..] + When(c, NewsUrlMissing);
      BlockingWarning(es[1..], c);
    }
  }

  /**
   * Only the emptiness of `sectors` and `investors` matters: two arrays
   * that are both empty or both non-empty give the same issues, whatever
   * their elements.
   */
  lemma ArrayElementsIgnored(deal: Deal, xs: seq<JsVal>, ys: seq<JsVal>)
    requires (xs == []) <==> (ys == [])
    ensures IssuesOf(deal.(sectors := Arr(xs))) == IssuesOf(deal.(sectors := Arr(ys)))
    ensures IssuesOf(deal.(investors := Arr(xs))) == IssuesOf(deal.(investors := Arr(ys)))
  {
  }

  /** A missing `news_url` is reported, as a warning that never blocks. */
  lemma NewsUrlOnlyWarns(deal: Deal)
    requires !Truthy(deal.newsUrl)
    ensures NewsUrlMissing in IssuesOf(deal)
    ensures NewsUrlMissing !in Blocking(IssuesOf(deal))
  {
    assert IssuesOf(deal)[|IssuesOf(deal)| - 1] == NewsUrlMissing;
  }

  /** A founder given as a plain string is reported at its index and rejects the deal. */
  lemma PlainStringFounderRejected(deal: Deal, i: nat)
    requires i < |Founders(deal)| && Founders(deal)[i].Str?
    ensures !Throws(deal) ==> FounderIsString(i) in IssuesOf(deal)
    ensures ValidationOf(deal) != Returned(true)
  {
    var fs := Founders(deal);
    FounderIssuesAt(fs, |fs|, i);
    ValidationMeaning(deal);
    assert fs[i] in fs;
  }

  /** The issue of founder `i` is among the issues of any longer prefix. */
  lemma {:induction false} FounderIssuesAt(fs: seq<JsVal>, n: nat, i: nat)
    requires i < n <= |fs|
    ensures forall e :: e in FounderIssue(fs[i], i) ==> e in FounderIssues(fs, n)
  {
    if i < n - 1 {
      FounderIssuesAt(fs, n - 1, i);
    }
  }

  // ---------------------------------------------------------------------
  // insertDeal and the run in main
  // ---------------------------------------------------------------------

  /** Which copy of the script runs. */
  datatype Script = Standard | Jan16 | Jan23

  /** The strings `insertDeal` returns, and `'failed'` for a caught exception. */
  datatype Outcome = Success | Added | Skipped | Failed

  /**
   * What the database does to one insertion: nothing goes wrong, an
   * exception is thrown before anything is written, or the company or the
   * funding-round insert returns an error.
   */
  datatype Fault = NoFault | Thrown | CompanyInsertFails | RoundInsertFails

  /** The companies by name and the funding rounds, each by its company's name. */
  datatype Db = Db(companies: set<string>, rounds: seq<string>)

  /** `deal.company`. */
  function CompanyName(deal: Deal): string {
    if deal.company.Str? then deal.company.s else ""
  }

  /**
   * One `insertDeal`: an existing company gets a new round and reports
   * `'added'` in insert-deals.js, and is skipped with nothing written in
   * the jan16 and jan23 copies; a new company is created, then its round.
   */
  function Insert(script: Script, db: Db, name: string, fault: Fault): (r: (Db, Outcome))
    ensures script == Standard ==> r.1 != Skipped
    ensures script != Standard ==> r.1 != Added
    ensures r.1 == Skipped <==> script != Standard && fault != Thrown && name in db.companies
    ensures r.0.rounds == db.rounds + (if r.1 == Success || r.1 == Added then [name] else [])
    ensures db.companies <= r.0.companies <= db.companies + {name}
    ensures r.1 == Success || r.1 == Added ==> name in r.0.companies
  {
    if fault == Thrown then (db, Failed)
    else if name in db.companies then
      if script != Standard then (db, Skipped)
      else if fault == RoundInsertFails then (db, Failed)
      else (db.(rounds := db.rounds + [name]), Added)
    else if fault == CompanyInsertFails then (db, Failed)
    else if fault == RoundInsertFails then (db.(companies := db.companies + {name}), Failed)
    else (Db(db.companies + {name}, db.rounds + [name]), Success)
  }

  /** The deals inserted one after the other, with the outcome of each. */
  function InsertAll(script: Script, db: Db, deals: seq<Deal>, faults: seq<Fault>): (Db, seq<Outcome>)
    requires |faults| == |deals|
  {
    if deals == [] then (db, [])
    else
      var (d, os) := InsertAll(script, db, deals[..|deals| - 1], faults[..|faults| - 1]);
      var (d', o) := Insert(script, d, CompanyName(deals[|deals| - 1]), faults[|faults| - 1]);
      (d', os + [o])
  }

  /** The `results` object of `main`: one counter per outcome. */
  datatype Tally = Tally(success: nat, added: nat, skipped: nat, failed: nat)

  function Bump(t: Tally, o: Outcome): Tally {
    match o
    case Success => t.(success := t.success + 1)
    case Added => t.(added := t.added + 1)
    case Skipped => t.(skipped := t.skipped + 1)
    case Failed => t.(failed := t.failed + 1)
  }

  function Count(os: seq<Outcome>, o: Outcome): nat {
    if os == [] then 0 else Count(os[..|os| - 1], o) + (if os[|os| - 1] == o then 1 else 0)
  }

  /** The tally of a sequence of outcomes. */
  function TallyOf(os: seq<Outcome>): (t: Tally)
    ensures t == Tally(Count(os, Success), Count(os, Added), Count(os, Skipped), Count(os, Failed))
  {
    if os == [] then Tally(0, 0, 0, 0) else Bump(TallyOf(os[..|os| - 1]), os[|os| - 1])
  }

  /** How `main` ends: `process.exit(code)`, or an exception out of the validation loop. */
  datatype RunEnd = Exited(code: int) | Crashed

  /** The database the script writes to. */
  class DealStore {
    var companies: set<string>
    var rounds: seq<string>

    constructor(companies: set<string>, rounds: seq<string>)
      ensures this.companies == companies && this.rounds == rounds
    {
      this.companies := companies;
      this.rounds := rounds;
    }

    /** `insertDeal` against this store. */
    method InsertDeal(script: Script, deal: Deal, fault: Fault) returns (r: Outcome)
      modifies this
      ensures (Db(companies, rounds), r) ==
              Insert(script, Db(old(companies), old(rounds)), CompanyName(deal), fault)
    {
      if fault == Thrown {
        return Failed;
      }
      var name := CompanyName(deal);
      if name in companies {
        if script != Standard {
          return Skipped;
        }
        // the company row is refreshed (description, website, city), which is not modelled
        if fault == RoundInsertFails {
          return Failed;
        }
        rounds := rounds + [name];
        return Added;
      }
      if fault == CompanyInsertFails {
        return Failed;
      }
      companies := companies + {name};
      if fault == RoundInsertFails {
        return Failed;
      }
      rounds := rounds + [name];
      r := Success;
    }
  }

  /**
   * `main`: no deals exits 0; every deal is validated before any insert,
   * and one invalid deal exits 1 with nothing written; otherwise each deal
   * is inserted in turn, its outcome tallied, and the run exits 1 exactly
   * when some insertion failed. `faults[i]` is what the database does to
   * deal `i`.
   */
  method Run(store: DealStore, script: Script, deals: seq<Deal>, faults: seq<Fault>)
    returns (end: RunEnd, tally: Tally)
    requires |faults| == |deals|
    modifies store
    ensures deals == [] ==> end == Exited(0)
    ensures end == Crashed <==> exists i :: 0 <= i < |deals| && Throws(deals[i])
    ensures (exists i :: 0 <= i < |deals| && !Valid(deals[i])) &&
            !(exists i :: 0 <= i < |deals| && Throws(deals[i])) ==>
            end == Exited(1) && tally == Tally(0, 0, 0, 0)
    ensures !(deals != [] && forall i :: 0 <= i < |deals| ==> Valid(deals[i])) ==>
            store.companies == old(store.companies) && store.rounds == old(store.rounds)
    ensures deals != [] && (forall i :: 0 <= i < |deals| ==> Valid(deals[i])) ==>
            var (db, os) := InsertAll(script, Db(old(store.companies), old(store.rounds)), deals, faults);
            && Db(store.companies, store.rounds) == db
            && tally == TallyOf(os)
            && end == Exited(if tally.failed > 0 then 1 else 0)
  {
    tally := Tally(0, 0, 0, 0);
    if deals == [] {
      return Exited(0), tally;
    }

    var crashed, allValid := ValidateAll(deals);
    forall i | 0 <= i < |deals| && Valid(deals[i]) ensures !Throws(deals[i]) {
      ValidationMeaning(deals[i]);
    }
    if crashed {
      return Crashed, tally;
    }
    if !allValid {
      return Exited(1), tally;
    }
    tally := InsertEach(store, script, deals, faults);
    end := Exited(if tally.failed > 0 then 1 else 0);
  }

  /**
   * The validation loop of `main`: every deal is validated, and one that
   * is not valid clears `allValid`; an exception ends the run.
   */
  method ValidateAll(deals: seq<Deal>) returns (crashed: bool, allValid: bool)
    ensures crashed <==> exists i :: 0 <= i < |deals| && Throws(deals[i])
    ensures !crashed ==> (allValid <==> forall i :: 0 <= i < |deals| ==> Valid(deals[i]))
  {
    allValid := true;
    var i := 0;
    while i < |deals|
      invariant 0 <= i <= |deals|
      invariant forall j :: 0 <= j < i ==> !Throws(deals[j])
      invariant allValid <==> forall j :: 0 <= j < i ==> Valid(deals[j])
    {
      var v, _ := ValidateDeal(deals[i]);
      if v.Threw? {
        return true, allValid;
      }
      if !v.valid {
        allValid := false;
      }
      i := i + 1;
    }
    crashed := false;
  }

  /** The insertion loop of `main`: insert each deal in turn and tally its outcome. */
  method InsertEach(store: DealStore, script: Script, deals: seq<Deal>, faults: seq<Fault>)
    returns (tally: Tally)
    requires |faults| == |deals|
    modifies store
    ensures var (db, os) := InsertAll(script, Db(old(store.companies), old(store.rounds)), deals, faults);
            Db(store.companies, store.rounds) == db && tally == TallyOf(os)
  {
    tally := Tally(0, 0, 0, 0);
    ghost var db0 := Db(store.companies, store.rounds);
    ghost var outcomes: seq<Outcome> := [];
    var i := 0;
    while i < |deals|
      invariant 0 <= i <= |deals|
      invariant (Db(store.companies, store.rounds), outcomes) == InsertAll(script, db0, deals[..i], faults[..i])
      invariant tally == TallyOf(outcomes)
    {
      InsertAllStep(script, db0, deals, faults, i);
      var r := store.InsertDeal(script, deals[i], faults[i]);
      tally := Bump(tally, r);
      TallyPush(outcomes, r);
      outcomes := outcomes + [r];
      i := i + 1;
    }
    assert deals[..i] == deals && faults[..i] == faults;
  }

  /** One more outcome bumps its own counter. */
  lemma TallyPush(os: seq<Outcome>, o: Outcome)
    ensures TallyOf(os + [o]) == Bump(TallyOf(os), o)
  {
    assert (os + [o])[..|os|] == os;
  }

  /** One more deal: its insertion runs on the database the earlier ones left. */
  lemma InsertAllStep(script: Script, db: Db, deals: seq<Deal>, faults: seq<Fault>, i: nat)
    requires |faults| == |deals| && i < |deals|
    ensures InsertAll(script, db, deals[..i + 1], faults[..i + 1]) ==
      var (d, os) := InsertAll(script, db, deals[..i], faults[..i]);
      var (d', o) := Insert(script, d, CompanyName(deals[i]), faults[i]);
      (d', os + [o])
  {
    assert deals[..i + 1][..i] == deals[..i];
    assert faults[..i + 1][..i] == faults[..i];
  }

  // ---------------------------------------------------------------------
  // Properties of the run
  // ---------------------------------------------------------------------

  /** Every deal is counted exactly once. */
  lemma {:induction false} TallyTotal(os: seq<Outcome>)
    ensures TallyOf(os).success + TallyOf(os).added + TallyOf(os).skipped + TallyOf(os).failed == |os|
  {
    if os != [] {
      TallyTotal(os[..|os| - 1]);
    }
  }

  /**
   * insert-deals.js never skips and the jan16 and jan23 copies never add
   * a round to an existing company; rounds grow by one for each success or
   * addition and companies are never removed.
   */
  lemma {:induction false} ScriptOutcomes(script: Script, db: Db, deals: seq<Deal>, faults: seq<Fault>)
    requires |faults| == |deals|
    ensures var (d, os) := InsertAll(script, db, deals, faults);
      && |os| == |deals|
      && (script == Standard ==> Count(os, Skipped) == 0)
      && (script != Standard ==> Count(os, Added) == 0)
      && |d.rounds| == |db.rounds| + Count(os, Success) + Count(os, Added)
      && db.rounds <= d.rounds
      && db.companies <= d.companies
  {
    if deals != [] {
      var n := |deals| - 1;
      ScriptOutcomes(script, db, deals[..n], faults[..n]);
      var (d, os) := InsertAll(script, db, deals[..n], faults[..n]);
      var o := Insert(script, d, CompanyName(deals[n]), faults[n]).1;
      CountPush(os, o, Success);
      CountPush(os, o, Added);
      CountPush(os, o, Skipped);
    }
  }

  /**
   * One insertion: the outcomes each script can report, the round it
   * appends exactly when it reports success or added, and no company lost.
   */
  lemma CountPush(os: seq<Outcome>, o: Outcome, x: Outcome)
    ensures Count(os + [o], x) == Count(os, x) + (if o == x then 1 else 0)
  {
    assert (os + [o])[..|os|] == os;
  }

  /**
   * The jan16 and jan23 copies skip a company that already exists, so a
   * run creates a round only for a company that did not exist before, and
   * never two rounds for the same company.
   */
  lemma {:induction false} SkippingNeverDuplicates(script: Script, db: Db, deals: seq<Deal>, faults: seq<Fault>)
    requires script != Standard
    requires |faults| == |deals|
    ensures var d := InsertAll(script, db, deals, faults).0;
      && db.rounds <= d.rounds
      && db.companies <= d.companies
      && (forall k :: |db.rounds| <= k < |d.rounds| ==> d.rounds[k] !in db.companies && d.rounds[k] in d.companies)
      && (forall k, l :: |db.rounds| <= k < l < |d.rounds| ==> d.rounds[k] != d.rounds[l])
  {
    if deals != [] {
      var pre := deals[..|deals| - 1];
      var pf := faults[..|faults| - 1];
      SkippingNeverDuplicates(script, db, pre, pf);
    }
  }

  /** In insert-deals.js, a deal for an existing company with no fault adds its round. */
  lemma ExistingCompanyAdded(db: Db, deal: Deal)
    requires CompanyName(deal) in db.companies
    ensures Insert(Standard, db, CompanyName(deal), NoFault) ==
            (db.(rounds := db.rounds + [CompanyName(deal)]), Added)
    ensures Insert(Jan16, db, CompanyName(deal), NoFault) == (db, Skipped)
    ensures Insert(Jan23, db, CompanyName(deal), NoFault) == (db, Skipped)
  {
  }
}

/**
 * The batch of the SIREN matcher: search the registry for every company
 * (once with its city, once without when that finds nothing), pick the
 * best candidate, sort the company into the HIGH / MEDIUM / LOW /
 * not-found / error buckets, and write the SIREN and SIRET of HIGH
 * matches, either as they are found or, under `--confirm`, after a
 * yes at the prompt.  `--dry-run` writes nothing.
 *
 * The registry is a function from the query string to its HTTP response;
 * the database is a `Datastore` object whose `rows` map the updates change.
 */
module Batch {
  import opened Wrappers
  import opened Query
  import opened Matcher

  /**
   * The body of a response as `response.json()` reads it: a JSON object
   * whose `etablissements` is a list or absent (`None` also stands for a
   * falsy value there), or a body that is not JSON or is JSON `null`, on
   * which reading `data.etablissements` throws.
   */
  datatype Body =
    | Json(etablissements: Option<seq<Candidate>>)
    | Unreadable

  /** The registry's answer to one query; `FetchFailed` is a request that never got a response. */
  datatype Response =
    | Http(status: int, body: Body)
    | FetchFailed

  /** Why `searchSirene` throws. */
  datatype SearchError =
    | RateLimited            // status 429
    | SearchFailed(status: int)  // any other status outside 200-299, except 404
    | NetworkError           // fetch itself rejected
    | BadBody                // a 200-299 body that is not JSON, or is JSON `null`

  type Registry = string -> Response

  /** `response.ok`: a status in 200-299. */
  predicate IsOk(status: int) {
    200 <= status <= 299
  }

  /**
   * `searchSirene(name, city)`: 404 is an empty result, 429 and every other
   * status outside 200-299 an error, an unreadable body an error, and a
   * missing `etablissements` an empty list.  The empty city is the call
   * without a city.
   */
  function SearchSirene(registry: Registry, name: string, city: string): (r: Result<seq<Candidate>, SearchError>)
    ensures var resp := registry(BuildQuery(name, city));
      r.Ok? <==> resp.Http? && (resp.status == 404 || (IsOk(resp.status) && resp.body.Json?))
    ensures var resp := registry(BuildQuery(name, city));
      resp.Http? && resp.status == 404 ==> r == Ok([])
    ensures var resp := registry(BuildQuery(name, city));
      r == Err(RateLimited) <==> resp.Http? && resp.status == 429
    ensures var resp := registry(BuildQuery(name, city));
      r == Err(NetworkError) <==> resp.FetchFailed?
    ensures var resp := registry(BuildQuery(name, city));
      r == Err(BadBody) <==> resp.Http? && IsOk(resp.status) && resp.body.Unreadable?
    ensures var resp := registry(BuildQuery(name, city));
      resp.Http? && IsOk(resp.status) && resp.body.Json? ==>
        r == Ok(if resp.body.etablissements.Some? then resp.body.etablissements.value else [])
    ensures var resp := registry(BuildQuery(name, city));
      resp.Http? && resp.status != 404 && resp.status != 429 && !IsOk(resp.status) ==>
        r == Err(SearchFailed(resp.status))
  {
    match registry(BuildQuery(name, city))
    case FetchFailed => Err(NetworkError)
    case Http(status, body) =>
      if status == 404 then Ok([])
      else if status == 429 then Err(RateLimited)
      else if !IsOk(status) then Err(SearchFailed(status))
      else match body
        case Unreadable => Err(BadBody)
        case Json(None) => Ok([])
        case Json(Some(list)) => Ok(list)
  }

  /** A company row as the batch reads it; a missing city is the empty string. */
  datatype Company = Company(id: int, name: string, city: string)

  /** How one company ends up. */
  datatype Outcome =
    | Matched(m: Match)
    | NotFound
    | Errored(e: SearchError)

  /** The outcome of a candidate list: no best match is "not found". */
  ghost function OutcomeOfPool(c: Company, pool: seq<Candidate>): Outcome {
    match MatchOf(c.name, c.city, pool)
    case None => NotFound
    case Some(m) => Matched(m)
  }

  /**
   * The outcome for one company: the search with the city; only when it
   * finds nothing, the search without; the match is always scored against
   * the company's own city.
   */
  ghost function OutcomeOf(registry: Registry, c: Company): (r: Outcome)
    ensures r.Matched? ==> r.m.confidence == Tier(r.m.best.nameSimilarity, r.m.best.cityMatch)
    ensures r.Errored? ==>
      SearchSirene(registry, c.name, c.city) == Err(r.e) || SearchSirene(registry, c.name, "") == Err(r.e)
  {
    match SearchSirene(registry, c.name, c.city)
    case Err(e) => Errored(e)
    case Ok(first) =>
      if first != [] then OutcomeOfPool(c, first)
      else
        match SearchSirene(registry, c.name, "")
        case Err(e) => Errored(e)
        case Ok(broader) => if broader == [] then NotFound else OutcomeOfPool(c, broader)
  }

  /** One entry of the HIGH, MEDIUM or LOW bucket. */
  datatype Record = Record(company: Company, best: Scored, confidence: Confidence)

  datatype Buckets = Buckets(
    high: seq<Record>,
    medium: seq<Record>,
    low: seq<Record>,
    notFound: seq<Company>,
    errors: seq<(Company, SearchError)>)

  const NoBuckets := Buckets([], [], [], [], [])

  /** Appends one company to the bucket its outcome selects. */
  function Route(b: Buckets, c: Company, o: Outcome): Buckets {
    match o
    case NotFound => b.(notFound := b.notFound + [c])
    case Errored(e) => b.(errors := b.errors + [(c, e)])
    case Matched(m) =>
      var r := Record(c, m.best, m.confidence);
      match m.confidence
      case High => b.(high := b.high + [r])
      case Medium => b.(medium := b.medium + [r])
      case Low => b.(low := b.low + [r])
  }

  /** The buckets after processing `cs` in order, each company going where `outcome` sends it. */
  function SortedBy(outcome: Company -> Outcome, cs: seq<Company>): Buckets
    decreases |cs|
  {
    if cs == [] then NoBuckets
    else Route(SortedBy(outcome, cs[..|cs| - 1]), cs[|cs| - 1], outcome(cs[|cs| - 1]))
  }

  /** The search outcome of every company against `registry`. */
  ghost function Outcomes(registry: Registry): Company -> Outcome {
    c => OutcomeOf(registry, c)
  }

  /** The buckets after processing `cs` in order against `registry`. */
  ghost function Sorted(registry: Registry, cs: seq<Company>): Buckets {
    SortedBy(Outcomes(registry), cs)
  }

  function Size(b: Buckets): nat {
    |b.high| + |b.medium| + |b.low| + |b.notFound| + |b.errors|
  }

  /** The SIREN and SIRET stored for a company; the empty string is `null`. */
  datatype SirenIds = SirenIds(siren: string, siret: string)

  /**
   * One `update(...).eq('id', id)`: a failing request or an id with no row
   * changes nothing.
   */
  function Write(rows: map<int, SirenIds>, failing: set<int>, id: int, c: Candidate): map<int, SirenIds> {
    if id in failing || id !in rows then rows else rows[id := SirenIds(c.siren, c.siret)]
  }

  /** The rows after writing every record, in order. */
  function Applied(rows: map<int, SirenIds>, failing: set<int>, recs: seq<Record>): map<int, SirenIds>
    decreases |recs|
  {
    if recs == [] then rows
    else
      var last := recs[|recs| - 1];
      Write(Applied(rows, failing, recs[..|recs| - 1]), failing, last.company.id, last.best.candidate)
  }

  /** How many records would be written successfully. */
  function CountOk(failing: set<int>, recs: seq<Record>): (n: nat)
    ensures n <= |recs|
    ensures (forall r :: r in recs ==> r.company.id !in failing) ==> n == |recs|
    decreases |recs|
  {
    if recs == [] then 0
    else CountOk(failing, recs[..|recs| - 1]) + (if recs[|recs| - 1].company.id in failing then 0 else 1)
  }

  /** `answer.toLowerCase().startsWith('y')`. */
  predicate Confirmed(answer: string) {
    |answer| > 0 && (answer[0] == 'y' || answer[0] == 'Y')
  }

  /** The `companies` table, reduced to the columns the batch writes. */
  class Datastore {
    var rows: map<int, SirenIds>
    /** The ids whose update request the database answers with an error. */
    const failing: set<int>

    constructor (rows0: map<int, SirenIds>, failing0: set<int>)
      ensures rows == rows0 && failing == failing0
    {
      rows := rows0;
      failing := failing0;
    }

    /**
     * `updateCompanySiren`: under dry run it reports success and writes
     * nothing; otherwise it reports whether the request succeeded.
     */
    method UpdateCompanySiren(id: int, c: Candidate, dryRun: bool) returns (ok: bool)
      modifies this
      ensures dryRun ==> ok && rows == old(rows)
      ensures !dryRun ==> ok == (id !in failing) && rows == Write(old(rows), failing, id, c)
    {
      if dryRun {
        return true;
      }
      if id in failing {
        return false;
      }
      ok := true;
      rows := Write(rows, failing, id, c);
    }
  }

  /** `applyHighConfidenceMatches`: write every record, count the successes. */
  method ApplyHighConfidenceMatches(store: Datastore, matches: seq<Record>, dryRun: bool)
    returns (successCount: nat)
    modifies store
    ensures store.rows == (if dryRun then old(store.rows) else Applied(old(store.rows), store.failing, matches))
    ensures successCount == (if dryRun then |matches| else CountOk(store.failing, matches))
  {
    successCount := 0;
    var i := 0;
    while i < |matches|
      invariant 0 <= i <= |matches|
      invariant store.rows == (if dryRun then old(store.rows) else Applied(old(store.rows), store.failing, matches[..i]))
      invariant successCount == (if dryRun then i else CountOk(store.failing, matches[..i]))
    {
      var r := matches[i];
      WriteStep(old(store.rows), store.failing, matches, i);
      var updated := store.UpdateCompanySiren(r.company.id, r.best.candidate, dryRun);
      if updated {
        successCount := successCount + 1;
      }
      i := i + 1;
    }
    assert matches[..i] == matches;
  }

  /**
   * Searches for one company and picks its match: the first search uses
   * the city, the broader one runs only when the first finds nothing.
   */
  method MatchCompany(registry: Registry, c: Company) returns (o: Outcome)
    ensures o == OutcomeOf(registry, c)
  {
    var first := SearchSirene(registry, c.name, c.city);
    if first.Err? {
      return Errored(first.error);
    }
    var pool := first.value;
    if pool == [] {
      var broader := SearchSirene(registry, c.name, "");
      if broader.Err? {
        return Errored(broader.error);
      }
      if broader.value == [] {
        return NotFound;
      }
      pool := broader.value;
    }
    var m := FindBestMatch(c.name, c.city, pool);
    o := if m.None? then NotFound else Matched(m.value);
  }

  /** Whether HIGH matches reach the database during the loop itself. */
  predicate WritesInLoop(dryRun: bool, confirm: bool) {
    !dryRun && !confirm
  }

  /**
   * `main` from the company list on: the loop, then the confirmation
   * step.  `answer` is what the operator types at the prompt; `asked` says
   * whether the prompt was shown.
   */
  method Run(store: Datastore, registry: Registry, companies: seq<Company>,
             dryRun: bool, confirm: bool, answer: string)
    returns (results: Buckets, asked: bool)
    modifies store
    ensures results == Sorted(registry, companies)
    ensures asked == (confirm && |results.high| > 0)
    ensures !dryRun && (!confirm || Confirmed(answer)) ==>
      store.rows == Applied(old(store.rows), store.failing, results.high)
    ensures dryRun || (confirm && !Confirmed(answer)) ==> store.rows == old(store.rows)
  {
    results := NoBuckets;
    asked := false;
    if |companies| == 0 {
      return;
    }
    var i := 0;
    while i < |companies|
      invariant 0 <= i <= |companies|
      invariant results == Sorted(registry, companies[..i])
      invariant store.rows == (if WritesInLoop(dryRun, confirm)
        then Applied(old(store.rows), store.failing, results.high) else old(store.rows))
    {
      var c := companies[i];
      var o := MatchCompany(registry, c);
      SortedStep(registry, companies, i);
      RouteHigh(results, c, o);
      if o.Matched? && o.m.confidence == High && WritesInLoop(dryRun, confirm) {
        AppliedStep(old(store.rows), store.failing, results.high, Record(c, o.m.best, High));
        var _ := store.UpdateCompanySiren(c.id, o.m.best.candidate, dryRun);
      }
      results := Route(results, c, o);
      i := i + 1;
    }
    assert companies[..i] == companies;
    if confirm && |results.high| > 0 {
      asked := true;
      if Confirmed(answer) {
        var _ := ApplyHighConfidenceMatches(store, results.high, dryRun);
      }
    }
  }

  /** One more company routes by its own outcome. */
  lemma SortedStep(registry: Registry, cs: seq<Company>, i: int)
    requires 0 <= i < |cs|
    ensures Sorted(registry, cs[..i + 1]) == Route(Sorted(registry, cs[..i]), cs[i], OutcomeOf(registry, cs[i]))
  {
    assert cs[..i + 1][..i] == cs[..i];
  }

  /** Only a HIGH match grows the HIGH bucket, by its own record. */
  lemma RouteHigh(b: Buckets, c: Company, o: Outcome)
    ensures Route(b, c, o).high == if o.Matched? && o.m.confidence == High
      then b.high + [Record(c, o.m.best, High)] else b.high
  {
  }

  /** Writing one more record applies its write last. */
  lemma AppliedStep(rows: map<int, SirenIds>, failing: set<int>, recs: seq<Record>, r: Record)
    ensures Applied(rows, failing, recs + [r])
      == Write(Applied(rows, failing, recs), failing, r.company.id, r.best.candidate)
  {
    assert (recs + [r])[..|recs|] == recs;
  }

  /** Writing the records up to `i` and then record `i`, and counting its success. */
  lemma WriteStep(rows: map<int, SirenIds>, failing: set<int>, recs: seq<Record>, i: int)
    requires 0 <= i < |recs|
    ensures Applied(rows, failing, recs[..i + 1])
      == Write(Applied(rows, failing, recs[..i]), failing, recs[i].company.id, recs[i].best.candidate)
    ensures CountOk(failing, recs[..i + 1])
      == CountOk(failing, recs[..i]) + (if recs[i].company.id in failing then 0 else 1)
  {
    assert recs[..i + 1][..i] == recs[..i];
  }

  // ---------------------------------------------------------------------
  // Properties
  // ---------------------------------------------------------------------

  /** The buckets hold one entry per company: the sizes add up to the input. */
  lemma {:induction false} BucketsCover(outcome: Company -> Outcome, cs: seq<Company>)
    ensures Size(SortedBy(outcome, cs)) == |cs|
    decreases |cs|
  {
    if cs != [] {
      BucketsCover(outcome, cs[..|cs| - 1]);
    }
  }

  /** `c`, with outcome `o`, is in the bucket that `o` selects. */
  predicate InItsBucket(b: Buckets, c: Company, o: Outcome) {
    match o
    case NotFound => c in b.notFound
    case Errored(e) => (c, e) in b.errors
    case Matched(m) =>
      var r := Record(c, m.best, m.confidence);
      match m.confidence
      case High => r in b.high
      case Medium => r in b.medium
      case Low => r in b.low
  }

  /** Routing only appends: what was in a bucket stays, and the routed company joins its own. */
  lemma RouteKeeps(b: Buckets, c: Company, o: Outcome, c': Company, o': Outcome)
    ensures InItsBucket(Route(b, c, o), c, o)
    ensures InItsBucket(b, c', o') ==> InItsBucket(Route(b, c, o), c', o')
  {
  }

  /** Every company of the list is in the bucket its outcome selects. */
  lemma {:induction false} EveryCompanyBucketed(outcome: Company -> Outcome, cs: seq<Company>)
    ensures forall i :: 0 <= i < |cs| ==> InItsBucket(SortedBy(outcome, cs), cs[i], outcome(cs[i]))
    decreases |cs|
  {
    if cs != [] {
      var n := |cs| - 1;
      EveryCompanyBucketed(outcome, cs[..n]);
      var b := SortedBy(outcome, cs[..n]);
      forall i | 0 <= i < |cs| ensures InItsBucket(SortedBy(outcome, cs), cs[i], outcome(cs[i])) {
        RouteKeeps(b, cs[n], outcome(cs[n]), cs[i], outcome(cs[i]));
        if i < n {
          assert cs[..n][i] == cs[i];
        }
      }
    }
  }

  /**
   * A record in the HIGH bucket is the HIGH match of one of the companies;
   * the MEDIUM and LOW buckets hold only MEDIUM and LOW matches.
   */
  lemma {:induction false} BucketsByTier(outcome: Company -> Outcome, cs: seq<Company>)
    ensures forall r :: r in SortedBy(outcome, cs).high ==>
      r.confidence == High && r.company in cs && outcome(r.company) == Matched(Match(r.best, High))
    ensures forall r :: r in SortedBy(outcome, cs).medium ==>
      r.confidence == Medium && r.company in cs && outcome(r.company) == Matched(Match(r.best, Medium))
    ensures forall r :: r in SortedBy(outcome, cs).low ==>
      r.confidence == Low && r.company in cs && outcome(r.company) == Matched(Match(r.best, Low))
    ensures forall c :: c in SortedBy(outcome, cs).notFound ==> c in cs && outcome(c) == NotFound
    ensures forall ce :: ce in SortedBy(outcome, cs).errors ==> ce.0 in cs && outcome(ce.0) == Errored(ce.1)
    decreases |cs|
  {
    if cs != [] {
      var init := cs[..|cs| - 1];
      BucketsByTier(outcome, init);
      assert forall c :: c in init ==> c in cs;
    }
  }

  /**
   * The broader search runs only when the first finds nothing: when the
   * search with the city finds candidates, what the registry answers
   * without the city does not matter.
   */
  lemma FallbackOnlyWhenEmpty(r1: Registry, r2: Registry, c: Company)
    requires r1(BuildQuery(c.name, c.city)) == r2(BuildQuery(c.name, c.city))
    requires SearchSirene(r1, c.name, c.city).Ok? && SearchSirene(r1, c.name, c.city).value != []
    ensures OutcomeOf(r1, c) == OutcomeOf(r2, c)
  {
  }

  /** Writing never adds or removes rows. */
  lemma {:induction false} AppliedKeys(rows: map<int, SirenIds>, failing: set<int>, recs: seq<Record>)
    ensures Applied(rows, failing, recs).Keys == rows.Keys
    decreases |recs|
  {
    if recs != [] {
      AppliedKeys(rows, failing, recs[..|recs| - 1]);
    }
  }

  /** A row with no record, or whose update fails, keeps its SIREN and SIRET. */
  lemma {:induction false} AppliedFrame(rows: map<int, SirenIds>, failing: set<int>, recs: seq<Record>, id: int)
    requires id in rows
    requires id in failing || forall r :: r in recs ==> r.company.id != id
    ensures id in Applied(rows, failing, recs) && Applied(rows, failing, recs)[id] == rows[id]
    decreases |recs|
  {
    if recs != [] {
      AppliedFrame(rows, failing, recs[..|recs| - 1], id);
    }
  }

  /** The last record of a company decides what its row ends up holding. */
  lemma {:induction false} LastWriteWins(rows: map<int, SirenIds>, failing: set<int>, recs: seq<Record>, i: int)
    requires 0 <= i < |recs|
    requires recs[i].company.id in rows && recs[i].company.id !in failing
    requires forall j :: i < j < |recs| ==> recs[j].company.id != recs[i].company.id
    ensures recs[i].company.id in Applied(rows, failing, recs)
    ensures Applied(rows, failing, recs)[recs[i].company.id]
      == SirenIds(recs[i].best.candidate.siren, recs[i].best.candidate.siret)
    decreases |recs|
  {
    var id := recs[i].company.id;
    var init := recs[..|recs| - 1];
    AppliedKeys(rows, failing, init);
    if i < |recs| - 1 {
      LastWriteWins(rows, failing, init, i);
    }
  }

  /** Only companies with a HIGH match can have their row changed by the batch. */
  lemma OnlyHighMatchesWritten(registry: Registry, cs: seq<Company>, rows: map<int, SirenIds>,
                               failing: set<int>, id: int)
    requires id in rows
    requires forall c :: c in cs && c.id == id ==>
      !(OutcomeOf(registry, c).Matched? && OutcomeOf(registry, c).m.confidence == High)
    ensures id in Applied(rows, failing, Sorted(registry, cs).high)
    ensures Applied(rows, failing, Sorted(registry, cs).high)[id] == rows[id]
  {
    BucketsByTier(Outcomes(registry), cs);
    AppliedFrame(rows, failing, Sorted(registry, cs).high, id);
  }
}

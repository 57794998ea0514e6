/**
 * `migration/update-sectors.js`: every company whose `sectors` array
 * holds a combined sector such as "CleanTech & Energy" has that entry
 * replaced by its component sectors, duplicates dropped and first
 * occurrences kept in order; `updatedCount` counts the rewritten
 * companies and `sectorChanges` the combined entries met.
 */
module UpdateSectors {
  import opened Json

  /** `SECTOR_MAPPING`: each combined sector and its components. */
  const SectorMapping: map<string, seq<string>> := map[
    "AgriTech & FoodTech" := ["AgriTech", "FoodTech"],
    "FoodTech & AgriTech" := ["AgriTech", "FoodTech"],
    "CleanTech & Energy" := ["CleanTech", "Energy"],
    "HealthTech & BioTech" := ["HealthTech", "BioTech"],
    "DeepTech & Hardware" := ["DeepTech", "Hardware"],
    "BioTech & Pharma" := ["BioTech"]
  ]

  /** The component sectors any key maps to. */
  const Components: set<string> := {"AgriTech", "FoodTech", "CleanTech", "Energy", "HealthTech", "BioTech", "DeepTech", "Hardware"}

  /** `SECTOR_MAPPING[sector]` is truthy: the entry is a combined sector. */
  predicate Combined(v: JsVal) {
    v.Str? && v.s in SectorMapping
  }

  function AsStrings(ss: seq<string>): (r: seq<JsVal>)
    ensures |r| == |ss|
    ensures forall i {:trigger r[i]} :: 0 <= i < |ss| ==> r[i] == Str(ss[i])
  {
    seq(|ss|, i requires 0 <= i < |ss| => Str(ss[i]))
  }

  /** What one entry stands for: its components when combined, itself otherwise. */
  function Parts(v: JsVal): seq<JsVal> {
    if Combined(v) then AsStrings(SectorMapping[v.s]) else [v]
  }

  /** Every entry replaced by what it stands for. */
  function Flat(xs: seq<JsVal>): seq<JsVal> {
    if xs == [] then [] else Flat(xs[..|xs| - 1]) + Parts(xs[|xs| - 1])
  }

  /** The first occurrence of each value, in order. */
  function Dedup(ys: seq<JsVal>): seq<JsVal> {
    if ys == [] then []
    else
      var pre := ys[..|ys| - 1];
      Dedup(pre) + (if ys[|ys| - 1] in pre then [] else [ys[|ys| - 1]])
  }

  /** The rewritten list of a company's sectors. */
  function NewSectors(xs: seq<JsVal>): seq<JsVal> {
    Dedup(Flat(xs))
  }

  predicate HasCombined(xs: seq<JsVal>) {
    exists x :: x in xs && Combined(x)
  }

  /** The sectors array of a company, or none when the field is not an array. */
  function SectorsOf(c: Object): seq<JsVal> {
    var v := Get(c, "sectors");
    if v.Arr? then v.elems else []
  }

  /** A company after the pass: rewritten only when it holds a combined sector. */
  function UpdateCompany(c: Object): Object {
    if Get(c, "sectors").Arr? && HasCombined(SectorsOf(c)) then c["sectors" := Arr(NewSectors(SectorsOf(c)))]
    else c
  }

  function UpdateAll(cs: seq<Object>): (r: seq<Object>)
    ensures |r| == |cs|
    ensures forall i {:trigger r[i]} :: 0 <= i < |cs| ==> r[i] == UpdateCompany(cs[i])
  {
    seq(|cs|, i requires 0 <= i < |cs| => UpdateCompany(cs[i]))
  }

  /** The number of companies holding a combined sector. */
  function CountUpdated(cs: seq<Object>): nat {
    if cs == [] then 0
    else CountUpdated(cs[..|cs| - 1]) + (if HasCombined(SectorsOf(cs[|cs| - 1])) then 1 else 0)
  }

  /** The number of entries equal to the string `k`. */
  function Occurrences(xs: seq<JsVal>, k: string): nat {
    if xs == [] then 0
    else Occurrences(xs[..|xs| - 1], k) + (if xs[|xs| - 1] == Str(k) then 1 else 0)
  }

  /** The number of entries equal to `k` when `k` is a combined sector, zero otherwise. */
  function Met(xs: seq<JsVal>, k: string): nat {
    if k in SectorMapping then Occurrences(xs, k) else 0
  }

  /** The occurrences of the combined sector `k` across all companies. */
  function TotalOccurrences(cs: seq<Object>, k: string): nat {
    if cs == [] then 0
    else TotalOccurrences(cs[..|cs| - 1], k) + Met(SectorsOf(cs[|cs| - 1]), k)
  }

  /** A counter of `sectorChanges`, zero when absent. */
  function Counter(m: map<string, nat>, k: string): nat {
    if k in m then m[k] else 0
  }

  /** `sectorChanges[k]++`, starting from zero. */
  function Bump(m: map<string, nat>, k: string): map<string, nat> {
    m[k := Counter(m, k) + 1]
  }

  /** The counters after meeting the entries `xs`. */
  function ChangesOf(xs: seq<JsVal>, m: map<string, nat>): map<string, nat> {
    if xs == [] then m
    else
      var m' := ChangesOf(xs[..|xs| - 1], m);
      if Combined(xs[|xs| - 1]) then Bump(m', xs[|xs| - 1].s) else m'
  }

  /** The counters after meeting every company. */
  function TotalChanges(cs: seq<Object>): map<string, nat> {
    if cs == [] then map[] else ChangesOf(SectorsOf(cs[|cs| - 1]), TotalChanges(cs[..|cs| - 1]))
  }

  // ---------------------------------------------------------------------
  // The loops
  // ---------------------------------------------------------------------

  /**
   * The body of the company loop: walk the sectors, pushing each
   * component of a combined entry, or the entry itself, unless
   * `newSectors` already includes it, and count the combined entries.
   */
  method RewriteSectors(sectors: seq<JsVal>, changesIn: map<string, nat>)
    returns (newSectors: seq<JsVal>, changed: bool, changes: map<string, nat>)
    ensures newSectors == NewSectors(sectors)
    ensures changed == HasCombined(sectors)
    ensures changes == ChangesOf(sectors, changesIn)
  {
    newSectors := [];
    changed := false;
    changes := changesIn;
    for i := 0 to |sectors|
      invariant newSectors == Dedup(Flat(sectors[..i]))
      invariant changed == HasCombined(sectors[..i])
      invariant changes == ChangesOf(sectors[..i], changesIn)
    {
      var sector := sectors[i];
      PrefixStep(sectors, i, changesIn);
      ghost var before := Flat(sectors[..i]);
      if Combined(sector) {
        newSectors := PushComponents(newSectors, before, SectorMapping[sector.s]);
        changed := true;
        changes := CountChange(changes, sector.s);
      } else {
        DedupPush(before, sector);
        if sector !in newSectors {
          newSectors := newSectors + [sector];
        }
      }
    }
    assert sectors[..|sectors|] == sectors;
  }

  /** `if (!sectorChanges[sector]) sectorChanges[sector] = 0; sectorChanges[sector]++`. */
  method CountChange(changes: map<string, nat>, sector: string) returns (r: map<string, nat>)
    ensures r == Bump(changes, sector)
  {
    r := changes;
    if sector !in r {
      r := r[sector := 0];
    }
    r := r[sector := r[sector] + 1];
  }

  /**
   * The inner loop over `SECTOR_MAPPING[sector]`: push each component
   * that `newSectors` does not include yet.
   */
  method PushComponents(newSectors: seq<JsVal>, ghost before: seq<JsVal>, individual: seq<string>)
    returns (r: seq<JsVal>)
    requires newSectors == Dedup(before)
    ensures r == Dedup(before + AsStrings(individual))
  {
    r := newSectors;
    assert before + AsStrings(individual[..0]) == before;
    for j := 0 to |individual|
      invariant r == Dedup(before + AsStrings(individual[..j]))
    {
      var s := Str(individual[j]);
      StringsStep(before, individual, j);
      DedupPush(before + AsStrings(individual[..j]), s);
      if s !in r {
        r := r + [s];
      }
    }
    assert individual[..|individual|] == individual;
  }

  /**
   * The body of the company loop for one company: one without an array
   * `sectors` is skipped; otherwise its sectors are rewritten, and the
   * new array is stored only when a combined sector was found.
   */
  method RewriteCompany(company: Object, changesIn: map<string, nat>)
    returns (updated: Object, changed: bool, changes: map<string, nat>)
    ensures updated == UpdateCompany(company)
    ensures changed == HasCombined(SectorsOf(company))
    ensures !changed ==> updated == company
    ensures changes == ChangesOf(SectorsOf(company), changesIn)
  {
    var sectors := Get(company, "sectors");
    // `!company.sectors || !Array.isArray(company.sectors)`: an array is truthy
    if !sectors.Arr? {
      return company, false, changesIn;
    }
    var newSectors;
    newSectors, changed, changes := RewriteSectors(sectors.elems, changesIn);
    updated := if changed then company["sectors" := Arr(newSectors)] else company;
  }

  /**
   * `updateSectors`: companies without an array `sectors` are skipped;
   * every other one is rewritten in place when it held a combined sector.
   */
  method Update(companies: array<Object>) returns (updatedCount: nat, sectorChanges: map<string, nat>)
    modifies companies
    ensures companies[..] == UpdateAll(old(companies[..]))
    ensures updatedCount == CountUpdated(old(companies[..]))
    ensures forall k :: Counter(sectorChanges, k) == TotalOccurrences(old(companies[..]), k)
    ensures forall k :: k in sectorChanges ==> sectorChanges[k] > 0
  {
    ghost var cs := companies[..];
    updatedCount := 0;
    sectorChanges := map[];
    for index := 0 to companies.Length
      invariant companies[..] == UpdateAll(cs[..index]) + cs[index..]
      invariant updatedCount == CountUpdated(cs[..index])
      invariant sectorChanges == TotalChanges(cs[..index])
    {
      UpdatePrefixStep(cs, index);
      CompanyStep(cs, index);
      var company := companies[index];
      var updated, changed, changes := RewriteCompany(company, sectorChanges);
      sectorChanges := changes;
      if changed {
        companies[index] := updated;
        updatedCount := updatedCount + 1;
      }
    }
    assert cs[..companies.Length] == cs;
    TotalChangesCount(cs);
  }

  // ---------------------------------------------------------------------
  // Lemmas behind the loops
  // ---------------------------------------------------------------------

  /** One more entry of the sectors: what the prefix functions gain. */
  lemma PrefixStep(xs: seq<JsVal>, i: nat, m: map<string, nat>)
    requires i < |xs|
    ensures Flat(xs[..i + 1]) == Flat(xs[..i]) + Parts(xs[i])
    ensures ChangesOf(xs[..i + 1], m) ==
      if Combined(xs[i]) then Bump(ChangesOf(xs[..i], m), xs[i].s) else ChangesOf(xs[..i], m)
    ensures HasCombined(xs[..i + 1]) <==> HasCombined(xs[..i]) || Combined(xs[i])
  {
    assert xs[..i + 1][..i] == xs[..i];
    assert xs[..i + 1] == xs[..i] + [xs[i]];
    if HasCombined(xs[..i + 1]) {
      var x :| x in xs[..i + 1] && Combined(x);
      assert x in xs[..i] || x == xs[i];
    }
  }

  /** The counters gain one per occurrence of each combined sector, and a present counter is positive. */
  lemma {:induction false} ChangesCount(xs: seq<JsVal>, m: map<string, nat>)
    ensures forall k :: Counter(ChangesOf(xs, m), k) == Counter(m, k) + Met(xs, k)
    ensures (forall k :: k in m ==> m[k] > 0) ==> forall k :: k in ChangesOf(xs, m) ==> ChangesOf(xs, m)[k] > 0
  {
    if xs != [] {
      var i := |xs| - 1;
      ChangesCount(xs[..i], m);
      MetStep(xs, i);
      assert xs[..i + 1] == xs;
    }
  }

  /** Over all companies, `sectorChanges[k]` is the number of entries equal to the combined sector `k`. */
  lemma {:induction false} TotalChangesCount(cs: seq<Object>)
    ensures forall k :: Counter(TotalChanges(cs), k) == TotalOccurrences(cs, k)
    ensures forall k :: k in TotalChanges(cs) ==> TotalChanges(cs)[k] > 0
  {
    if cs != [] {
      TotalChangesCount(cs[..|cs| - 1]);
      ChangesCount(SectorsOf(cs[|cs| - 1]), TotalChanges(cs[..|cs| - 1]));
    }
  }

  /** One more entry: only the combined sector it names gains an occurrence. */
  lemma MetStep(xs: seq<JsVal>, i: nat)
    requires i < |xs|
    ensures forall k ::
      Met(xs[..i + 1], k) == Met(xs[..i], k) + (if Combined(xs[i]) && k == xs[i].s then 1 else 0)
  {
    assert xs[..i + 1][..i] == xs[..i];
  }

  /** One more company: the updated prefix grows by that company's update. */
  lemma UpdatePrefixStep(cs: seq<Object>, i: nat)
    requires i < |cs|
    ensures (UpdateAll(cs[..i]) + cs[i..])[i] == cs[i]
    ensures (UpdateAll(cs[..i]) + cs[i..])[i := UpdateCompany(cs[i])] == UpdateAll(cs[..i + 1]) + cs[i + 1..]
    ensures UpdateCompany(cs[i]) == cs[i] ==> UpdateAll(cs[..i]) + cs[i..] == UpdateAll(cs[..i + 1]) + cs[i + 1..]
  {
    var s := UpdateAll(cs[..i]) + cs[i..];
    var t := UpdateAll(cs[..i + 1]) + cs[i + 1..];
    assert |s| == |t| == |cs|;
    assert forall j :: 0 <= j < |cs| ==> s[j] == (if j < i then UpdateCompany(cs[j]) else cs[j]);
    assert forall j :: 0 <= j < |cs| ==> t[j] == (if j <= i then UpdateCompany(cs[j]) else cs[j]);
  }

  /** One more company: what the counting functions gain. */
  lemma CompanyStep(cs: seq<Object>, i: nat)
    requires i < |cs|
    ensures CountUpdated(cs[..i + 1]) ==
      CountUpdated(cs[..i]) + (if HasCombined(SectorsOf(cs[i])) then 1 else 0)
    ensures TotalChanges(cs[..i + 1]) == ChangesOf(SectorsOf(cs[i]), TotalChanges(cs[..i]))
  {
    assert cs[..i + 1][..i] == cs[..i];
  }

  /** Deduplication keeps exactly the values of its input. */
  lemma {:induction false} DedupElems(ys: seq<JsVal>)
    ensures forall y :: y in Dedup(ys) <==> y in ys
  {
    if ys != [] {
      DedupElems(ys[..|ys| - 1]);
      assert ys == ys[..|ys| - 1] + [ys[|ys| - 1]];
    }
  }

  /** One more component appended after `before`. */
  lemma StringsStep(before: seq<JsVal>, individual: seq<string>, j: nat)
    requires j < |individual|
    ensures before + AsStrings(individual[..j + 1]) == (before + AsStrings(individual[..j])) + [Str(individual[j])]
  {
    assert AsStrings(individual[..j + 1]) == AsStrings(individual[..j]) + [Str(individual[j])];
  }

  /** Pushing a value unless it is already included extends the deduplication by one step. */
  lemma DedupPush(ys: seq<JsVal>, y: JsVal)
    ensures Dedup(ys + [y]) == Dedup(ys) + (if y in Dedup(ys) then [] else [y])
  {
    DedupElems(ys);
    assert (ys + [y])[..|ys|] == ys;
  }

  /** The deduplicated list has no repeated value. */
  lemma {:induction false} DedupDistinct(ys: seq<JsVal>)
    ensures forall i, j :: 0 <= i < j < |Dedup(ys)| ==> Dedup(ys)[i] != Dedup(ys)[j]
  {
    if ys != [] {
      var pre := ys[..|ys| - 1];
      DedupDistinct(pre);
      DedupElems(pre);
    }
  }

  /** A list with no repeated value is its own deduplication. */
  lemma {:induction false} DedupOfDistinct(ys: seq<JsVal>)
    requires forall i, j :: 0 <= i < j < |ys| ==> ys[i] != ys[j]
    ensures Dedup(ys) == ys
  {
    if ys != [] {
      var pre := ys[..|ys| - 1];
      DedupOfDistinct(pre);
      assert ys[|ys| - 1] !in pre;
      assert ys == pre + [ys[|ys| - 1]];
    }
  }

  /** No component is itself a combined sector. */
  lemma ComponentsNotCombined()
    ensures forall k, s :: k in SectorMapping && s in SectorMapping[k] ==> s in Components
    ensures forall s :: s in Components ==> s !in SectorMapping
  {
    assert SectorMapping.Keys == {"AgriTech & FoodTech", "FoodTech & AgriTech", "CleanTech & Energy",
                                  "HealthTech & BioTech", "DeepTech & Hardware", "BioTech & Pharma"};
    assert SectorMapping["AgriTech & FoodTech"] == ["AgriTech", "FoodTech"];
    assert SectorMapping["FoodTech & AgriTech"] == ["AgriTech", "FoodTech"];
    assert SectorMapping["CleanTech & Energy"] == ["CleanTech", "Energy"];
    assert SectorMapping["HealthTech & BioTech"] == ["HealthTech", "BioTech"];
    assert SectorMapping["DeepTech & Hardware"] == ["DeepTech", "Hardware"];
    assert SectorMapping["BioTech & Pharma"] == ["BioTech"];
  }

  /** What a value stands for is never combined, and a plain value stands for itself. */
  lemma PartsPlain(v: JsVal)
    ensures forall p :: p in Parts(v) ==> !Combined(p)
    ensures !Combined(v) ==> v in Parts(v)
  {
    if Combined(v) {
      ComponentsNotCombined();
      forall p | p in Parts(v) ensures !Combined(p) {
        var i :| 0 <= i < |Parts(v)| && Parts(v)[i] == p;
        assert SectorMapping[v.s][i] in SectorMapping[v.s];
      }
    }
  }

  /** Flattening leaves no combined entry and keeps every plain one. */
  lemma {:induction false} FlatPlain(xs: seq<JsVal>)
    ensures forall y :: y in Flat(xs) ==> !Combined(y)
    ensures forall x :: x in xs && !Combined(x) ==> x in Flat(xs)
  {
    if xs != [] {
      var pre := xs[..|xs| - 1];
      FlatPlain(pre);
      PartsPlain(xs[|xs| - 1]);
      assert xs == pre + [xs[|xs| - 1]];
    }
  }

  /** A list without combined entries flattens to itself. */
  lemma {:induction false} FlatOfPlain(xs: seq<JsVal>)
    requires !HasCombined(xs)
    ensures Flat(xs) == xs
  {
    if xs != [] {
      var pre := xs[..|xs| - 1];
      assert !HasCombined(pre) by {
        forall x | x in pre ensures !Combined(x) {
          assert x in xs;
        }
      }
      FlatOfPlain(pre);
      assert xs[|xs| - 1] in xs;
      assert xs == pre + [xs[|xs| - 1]];
    }
  }

  // ---------------------------------------------------------------------
  // Properties
  // ---------------------------------------------------------------------

  /**
   * The rewritten list holds no combined sector and no duplicate, and
   * still holds every plain sector of the input.
   */
  lemma NewSectorsShape(xs: seq<JsVal>)
    ensures forall y :: y in NewSectors(xs) ==> !Combined(y)
    ensures forall i, j :: 0 <= i < j < |NewSectors(xs)| ==> NewSectors(xs)[i] != NewSectors(xs)[j]
    ensures forall x :: x in xs && !Combined(x) ==> x in NewSectors(xs)
  {
    FlatPlain(xs);
    DedupElems(Flat(xs));
    DedupDistinct(Flat(xs));
  }

  /** The rewritten list holds exactly the values the entries stand for. */
  lemma NewSectorsValues(xs: seq<JsVal>)
    ensures forall y :: y in NewSectors(xs) <==> y in Flat(xs)
  {
    DedupElems(Flat(xs));
  }

  /** "FoodTech & AgriTech" expands in mapping order, to AgriTech then FoodTech. */
  lemma ExpandFoodAgri()
    ensures NewSectors([Str("FoodTech & AgriTech")]) == [Str("AgriTech"), Str("FoodTech")]
  {
    var a := [Str("FoodTech & AgriTech")];
    assert SectorMapping["FoodTech & AgriTech"] == ["AgriTech", "FoodTech"];
    assert Flat(a) == Flat([]) + Parts(a[0]) by { assert a[..0] == []; }
    assert Parts(a[0]) == [Str("AgriTech"), Str("FoodTech")];
    DedupOfDistinct(Flat(a));
  }

  /** "BioTech & Pharma" is simplified to BioTech alone. */
  lemma ExpandBioPharma()
    ensures NewSectors([Str("BioTech & Pharma")]) == [Str("BioTech")]
  {
    var b := [Str("BioTech & Pharma")];
    assert SectorMapping["BioTech & Pharma"] == ["BioTech"];
    assert Flat(b) == Flat([]) + Parts(b[0]) by { assert b[..0] == []; }
    assert Parts(b[0]) == [Str("BioTech")];
    DedupOfDistinct(Flat(b));
  }

  /** A component met twice is kept once, at its first place. */
  lemma ExpandSharedComponent()
    ensures NewSectors([Str("HealthTech & BioTech"), Str("BioTech & Pharma")]) ==
            [Str("HealthTech"), Str("BioTech")]
  {
    var c := [Str("HealthTech & BioTech"), Str("BioTech & Pharma")];
    assert SectorMapping["HealthTech & BioTech"] == ["HealthTech", "BioTech"];
    assert SectorMapping["BioTech & Pharma"] == ["BioTech"];
    PrefixStep(c, 0, map[]);
    PrefixStep(c, 1, map[]);
    assert c[..0] == [] && c[..2] == c;
    var f := [Str("HealthTech"), Str("BioTech"), Str("BioTech")];
    assert Flat(c) == f;
    assert f[..2] == [Str("HealthTech"), Str("BioTech")];
    DedupOfDistinct(f[..2]);
  }

  /**
   * A company without an array `sectors`, or without a combined sector,
   * is left exactly as it was, duplicates included.
   */
  lemma UntouchedCompanies(c: Object)
    requires !Get(c, "sectors").Arr? || !HasCombined(SectorsOf(c))
    ensures UpdateCompany(c) == c
  {
  }

  /** Rewriting again changes nothing. */
  lemma UpdateIdempotent(c: Object)
    ensures UpdateCompany(UpdateCompany(c)) == UpdateCompany(c)
  {
    var u := UpdateCompany(c);
    if u != c {
      NewSectorsShape(SectorsOf(c));
      assert SectorsOf(u) == NewSectors(SectorsOf(c));
      assert !HasCombined(SectorsOf(u));
    }
  }

  /** A second pass over the companies counts nothing and changes nothing. */
  lemma {:induction false} SecondPass(cs: seq<Object>)
    ensures UpdateAll(UpdateAll(cs)) == UpdateAll(cs)
    ensures CountUpdated(UpdateAll(cs)) == 0
  {
    forall i | 0 <= i < |cs| ensures UpdateCompany(UpdateAll(cs)[i]) == UpdateAll(cs)[i] {
      UpdateIdempotent(cs[i]);
    }
    if cs != [] {
      var pre := cs[..|cs| - 1];
      SecondPass(pre);
      assert UpdateAll(cs)[..|cs| - 1] == UpdateAll(pre);
      var c := cs[|cs| - 1];
      if Get(c, "sectors").Arr? && HasCombined(SectorsOf(c)) {
        NewSectorsShape(SectorsOf(c));
      }
    }
  }
}

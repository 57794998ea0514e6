/**
 * `migrate-sectors.js`: every company record of the parsed
 * `funding-data.json` array moves from a single `sector` string to a
 * `sectors` array, in place, while two counters record what happened.
 */
module MigrateSectors {
  import opened Json

  /** Which branch of the `forEach` body a record takes. */
  datatype Branch = Migrated | AlreadyArray | Defaulted

  function BranchOf(r: Object): Branch {
    if NonEmptyString(Get(r, "sector")) then Migrated
    else if Get(r, "sectors").Arr? then AlreadyArray
    else Defaulted
  }

  /**
   * One record after the pass: a non-empty string `sector` becomes the
   * one-element `sectors` and is deleted; a record that already has an
   * array `sectors` is left alone; any other record gets `sectors = []`.
   */
  function MigrateRecord(r: Object): (r': Object)
    ensures Get(r', "sectors").Arr?
    ensures forall k :: k != "sector" && k != "sectors" ==> Get(r', k) == Get(r, k)
  {
    match BranchOf(r)
    case Migrated => (r - {"sector"})["sectors" := Arr([Get(r, "sector")])]
    case AlreadyArray => r
    case Defaulted => r["sectors" := Arr([])]
  }

  /** The records after the pass. */
  function MigrateAll(rs: seq<Object>): (rs': seq<Object>)
    ensures |rs'| == |rs|
    ensures forall i {:trigger rs'[i]} :: 0 <= i < |rs| ==> rs'[i] == MigrateRecord(rs[i])
  {
    seq(|rs|, i requires 0 <= i < |rs| => MigrateRecord(rs[i]))
  }

  /** The number of records that take branch `b`. */
  function CountBranch(rs: seq<Object>, b: Branch): nat {
    if rs == [] then 0
    else CountBranch(rs[..|rs| - 1], b) + (if BranchOf(rs[|rs| - 1]) == b then 1 else 0)
  }

  /**
   * The `forEach` loop over the records: each record is rewritten in
   * place, `migrated` counts the converted ones and `skipped` the ones
   * already holding a `sectors` array.
   */
  method Migrate(data: array<Object>) returns (migrated: nat, skipped: nat)
    modifies data
    ensures data[..] == MigrateAll(old(data[..]))
    ensures migrated == CountBranch(old(data[..]), Migrated)
    ensures skipped == CountBranch(old(data[..]), AlreadyArray)
  {
    ghost var rs := data[..];
    migrated, skipped := 0, 0;
    var index := 0;
    while index < data.Length
      invariant 0 <= index <= data.Length
      invariant data[..index] == MigrateAll(rs[..index])
      invariant data[index..] == rs[index..]
      invariant migrated == CountBranch(rs[..index], Migrated)
      invariant skipped == CountBranch(rs[..index], AlreadyArray)
    {
      var company := data[index];
      assert company == rs[index] by { assert data[index..][0] == rs[index..][0]; }
      if NonEmptyString(Get(company, "sector")) {
        data[index] := (company - {"sector"})["sectors" := Arr([Get(company, "sector")])];
        migrated := migrated + 1;
      } else if Get(company, "sectors").Arr? {
        skipped := skipped + 1;
      } else {
        data[index] := company["sectors" := Arr([])];
      }
      assert rs[..index + 1][..index] == rs[..index];
      assert data[..index + 1] == data[..index] + [MigrateRecord(rs[index])];
      index := index + 1;
    }
    assert rs[..index] == rs;
  }

  // ---------------------------------------------------------------------
  // Properties
  // ---------------------------------------------------------------------

  /**
   * A record with a non-empty string `sector` ends with exactly that
   * sector in `sectors` and no `sector` key, whatever `sectors` held.
   */
  lemma SectorMoved(r: Object)
    requires NonEmptyString(Get(r, "sector"))
    ensures "sector" !in MigrateRecord(r)
    ensures Get(MigrateRecord(r), "sectors") == Arr([Get(r, "sector")])
  {
  }

  /**
   * Otherwise an array `sectors` is kept as it is, and a record without
   * one gets the empty array while a falsy `sector` stays in place.
   */
  lemma OtherRecords(r: Object)
    requires !NonEmptyString(Get(r, "sector"))
    ensures Get(r, "sectors").Arr? ==> MigrateRecord(r) == r
    ensures !Get(r, "sectors").Arr? ==>
      Get(MigrateRecord(r), "sectors") == Arr([]) && Get(MigrateRecord(r), "sector") == Get(r, "sector")
  {
  }

  /** The counters never exceed the number of records. */
  lemma {:induction false} CountsBounded(rs: seq<Object>)
    ensures CountBranch(rs, Migrated) + CountBranch(rs, AlreadyArray) <= |rs|
  {
    if rs != [] {
      CountsBounded(rs[..|rs| - 1]);
    }
  }

  /** After the pass no record has a non-empty string `sector`, and every one has an array `sectors`. */
  lemma MigratedRecordShape(r: Object)
    ensures BranchOf(MigrateRecord(r)) == AlreadyArray
  {
  }

  /** Every record of a migrated array takes the "already an array" branch. */
  lemma {:induction false} SecondPassCounts(rs: seq<Object>)
    ensures CountBranch(MigrateAll(rs), Migrated) == 0
    ensures CountBranch(MigrateAll(rs), AlreadyArray) == |rs|
  {
    if rs != [] {
      var pre := rs[..|rs| - 1];
      SecondPassCounts(pre);
      assert MigrateAll(rs)[..|rs| - 1] == MigrateAll(pre);
      MigratedRecordShape(rs[|rs| - 1]);
    }
  }

  /** Running the migration a second time converts nothing and changes nothing. */
  lemma SecondPassIsIdentity(rs: seq<Object>)
    ensures MigrateAll(MigrateAll(rs)) == MigrateAll(rs)
    ensures CountBranch(MigrateAll(rs), Migrated) == 0
  {
    SecondPassCounts(rs);
    forall i | 0 <= i < |rs|
      ensures MigrateRecord(MigrateAll(rs)[i]) == MigrateAll(rs)[i]
    {
      MigratedRecordShape(rs[i]);
    }
  }
}

/** The data-moving parts of the migration that folds company assets into fixed
    assets, and of its downgrade
    (alembic/versions/de798b342bdb_merge_company_assets_into_fixed_assets.py). */
module AssetMigration {
  import opened Base

  const PLACEHOLDER_COST_MINOR: int := 100_00
  const PLACEHOLDER_USEFUL_LIFE_MONTHS: int := 36

  /** A moment, with the calendar date it casts to. */
  datatype Timestamp = Timestamp(date: int, seconds: int)

  datatype Category = Laptop | Phone | Vehicle | Furniture | Other

  datatype CompanyStatus = Available | Assigned | Maintenance | Retired

  datatype CompanyAsset = CompanyAsset(
    org: Uuid, name: string, tag: string, category: Category, status: CompanyStatus,
    purchaseDate: Option<int>, purchaseValue: Option<int>, createdAt: Timestamp)

  /** One row shape serves asset_assignments and fixed_asset_assignments. */
  datatype Assignment = Assignment(
    org: Uuid, asset: Uuid, employee: Uuid, assignedDate: int, returnedDate: Option<int>,
    notes: Option<string>, createdAt: Timestamp)

  datatype FinancialStatus = Active | Disposed

  datatype AssignmentStatus = IsAvailable | IsAssigned | InMaintenance

  datatype FixedAsset = FixedAsset(
    org: Uuid, name: string, tag: string, acquisitionDate: int, cost: int, salvage: int, usefulLife: int,
    accumulated: int, status: FinancialStatus, disposedAt: Option<Timestamp>, proceeds: Option<int>,
    category: Option<Category>, assignmentStatus: Option<AssignmentStatus>, holder: Option<Uuid>, createdAt: Timestamp)

  datatype MigrationError = UniqueViolation

  // ----- One row -----

  function ToAssignmentStatus(s: CompanyStatus): Option<AssignmentStatus> {
    match s
    case Available => Some(IsAvailable)
    case Assigned => Some(IsAssigned)
    case Maintenance => Some(InMaintenance)
    case Retired => None
  }

  /** The SELECT of the upgrade's first INSERT. */
  function Upgraded(a: CompanyAsset, holder: Option<Uuid>): FixedAsset {
    FixedAsset(
      a.org, a.name, a.tag,
      if a.purchaseDate.Some? then a.purchaseDate.value else a.createdAt.date,
      if a.purchaseValue.Some? && a.purchaseValue.value != 0 then a.purchaseValue.value else PLACEHOLDER_COST_MINOR,
      0, PLACEHOLDER_USEFUL_LIFE_MONTHS, 0,
      if a.status.Retired? then Disposed else Active,
      None, None, Some(a.category), ToAssignmentStatus(a.status), holder, a.createdAt)
  }

  /** The upgrade's one UPDATE: every disposed row takes its creation time as its
      time of disposal. */
  function Stamped(f: FixedAsset): FixedAsset {
    if f.status.Disposed? then f.(disposedAt := Some(f.createdAt)) else f
  }

  /** The SELECT of the downgrade's first INSERT. */
  function Downgraded(f: FixedAsset): CompanyAsset
    requires f.category.Some?
  {
    CompanyAsset(
      f.org, f.name, f.tag, f.category.value,
      if f.status.Disposed? then Retired
      else match f.assignmentStatus
        case Some(IsAssigned) => Assigned
        case Some(InMaintenance) => Maintenance
        case _ => Available,
      Some(f.acquisitionDate), Some(f.cost), f.createdAt)
  }

  // ----- The tables -----

  datatype State = State(
    companyAssets: map<Uuid, CompanyAsset>, assetAssignments: map<Uuid, Assignment>,
    fixedAssets: map<Uuid, FixedAsset>, fixedAssetAssignments: map<Uuid, Assignment>)

  predicate UniqueCompanyTags(assets: map<Uuid, CompanyAsset>) {
    forall i, j :: i in assets && j in assets && i != j ==>
        (assets[i].org, assets[i].tag) != (assets[j].org, assets[j].tag)
  }

  predicate UniqueFixedTags(assets: map<Uuid, FixedAsset>) {
    forall i, j :: i in assets && j in assets && i != j ==>
        (assets[i].org, assets[i].tag) != (assets[j].org, assets[j].tag)
  }

  /** The schema before the upgrade: its keys and foreign key, no categorised
      fixed asset, and no new table. */
  predicate IsOldSchema(s: State) {
    && UniqueCompanyTags(s.companyAssets) && UniqueFixedTags(s.fixedAssets)
    && (forall i :: i in s.assetAssignments ==> s.assetAssignments[i].asset in s.companyAssets)
    && (forall i :: i in s.fixedAssets ==>
          s.fixedAssets[i].category.None? && s.fixedAssets[i].assignmentStatus.None? && s.fixedAssets[i].holder.None?)
    && s.fixedAssetAssignments == map[]
  }

  /** The INSERT breaks no primary key and no (org, tag) key. */
  predicate CanUpgrade(s: State) {
    forall i, j :: i in s.companyAssets && j in s.fixedAssets ==>
      i != j && (s.companyAssets[i].org, s.companyAssets[i].tag) != (s.fixedAssets[j].org, s.fixedAssets[j].tag)
  }

  /** Which open assignment the subquery's LIMIT 1 returned for each asset. */
  predicate IsHolderChoice(s: State, holders: map<Uuid, Option<Uuid>>) {
    && holders.Keys == s.companyAssets.Keys
    && forall i :: i in holders ==>
         if holders[i].Some?
         then exists a :: a in s.assetAssignments && s.assetAssignments[a].asset == i
                && s.assetAssignments[a].returnedDate.None? && s.assetAssignments[a].employee == holders[i].value
         else forall a :: a in s.assetAssignments && s.assetAssignments[a].asset == i ==>
             s.assetAssignments[a].returnedDate.Some?
  }

  function Upgrade(s: State, holders: map<Uuid, Option<Uuid>>): State
    requires holders.Keys == s.companyAssets.Keys
  {
    var moved := s.fixedAssets + map i | i in s.companyAssets :: Upgraded(s.companyAssets[i], holders[i]);
    State(map[], map[], map i | i in moved :: Stamped(moved[i]), s.assetAssignments)
  }

  function Downgrade(s: State): State {
    State(map i | i in s.fixedAssets && s.fixedAssets[i].category.Some? :: Downgraded(s.fixedAssets[i]),
          map a | a in s.fixedAssetAssignments && HasCategory(s.fixedAssets, s.fixedAssetAssignments[a].asset)
            :: s.fixedAssetAssignments[a],
          map i | i in s.fixedAssets && s.fixedAssets[i].category.None? ::
            s.fixedAssets[i].(assignmentStatus := None, holder := None),
          map[])
  }

  predicate HasCategory(assets: map<Uuid, FixedAsset>, id: Uuid) {
    id in assets && assets[id].category.Some?
  }

  class Tables {
    var companyAssets: map<Uuid, CompanyAsset>
    var assetAssignments: map<Uuid, Assignment>
    var fixedAssets: map<Uuid, FixedAsset>
    var fixedAssetAssignments: map<Uuid, Assignment>

    function Now(): State
      reads this
    {
      State(companyAssets, assetAssignments, fixedAssets, fixedAssetAssignments)
    }

    /** upgrade(): two INSERTs, an UPDATE over the whole table, two DROPs. */
    method RunUpgrade(holders: map<Uuid, Option<Uuid>>) returns (r: Result<(), MigrationError>)
      requires IsOldSchema(Now()) && IsHolderChoice(Now(), holders)
      modifies this
      ensures r.Ok? <==> CanUpgrade(old(Now()))
      ensures Now() == if r.Ok? then Upgrade(old(Now()), holders) else old(Now())
    {
      if exists i, j :: i in companyAssets && j in fixedAssets &&
           (i == j || (companyAssets[i].org, companyAssets[i].tag) == (fixedAssets[j].org, fixedAssets[j].tag)) {
        return Err(UniqueViolation);
      }
      fixedAssets := fixedAssets + map i | i in companyAssets :: Upgraded(companyAssets[i], holders[i]);
      fixedAssetAssignments := assetAssignments;
      fixedAssets := map i | i in fixedAssets :: Stamped(fixedAssets[i]);
      assetAssignments := map[];
      companyAssets := map[];
      return Ok(());
    }

    /** downgrade(): two INSERTs, a DELETE, and the dropped table and columns. */
    method RunDowngrade()
      requires companyAssets == map[] && assetAssignments == map[]
      modifies this
      ensures Now() == Downgrade(old(Now()))
    {
      companyAssets := map i | i in fixedAssets && fixedAssets[i].category.Some? :: Downgraded(fixedAssets[i]);
      assetAssignments := map a | a in fixedAssetAssignments && HasCategory(fixedAssets, fixedAssetAssignments[a].asset)
        :: fixedAssetAssignments[a];
      fixedAssets := map i | i in fixedAssets && fixedAssets[i].category.None? :: fixedAssets[i];
      fixedAssetAssignments := map[];
      fixedAssets := map i | i in fixedAssets :: fixedAssets[i].(assignmentStatus := None, holder := None);
    }
  }

  // ----- There and back -----

  /** What a round trip leaves of a company asset: itself, with a missing
      purchase date or a missing or zero value replaced by its default. */
  function Defaulted(a: CompanyAsset): CompanyAsset {
    a.(purchaseDate := Some(if a.purchaseDate.Some? then a.purchaseDate.value else a.createdAt.date),
       purchaseValue := Some(if a.purchaseValue.Some? && a.purchaseValue.value != 0 then a.purchaseValue.value
                             else PLACEHOLDER_COST_MINOR))
  }

  lemma RowRoundTrip(a: CompanyAsset, holder: Option<Uuid>)
    ensures Upgraded(a, holder).category == Some(a.category)
        && Stamped(Upgraded(a, holder)).category == Some(a.category)
    ensures Downgraded(Stamped(Upgraded(a, holder))) == Defaulted(a)
    ensures Defaulted(Defaulted(a)) == Defaulted(a)
    ensures Defaulted(a) == a <==> a.purchaseDate.Some? && a.purchaseValue.Some? && a.purchaseValue.value != 0
  {
  }

  /** Downgrade after upgrade restores every company asset, up to those
      defaults, and every assignment with its holder and dates. */
  lemma RoundTripRestores(s: State, holders: map<Uuid, Option<Uuid>>)
    requires IsOldSchema(s) && CanUpgrade(s) && holders.Keys == s.companyAssets.Keys
    ensures var t := Downgrade(Upgrade(s, holders));
            && t.companyAssets == (map i | i in s.companyAssets :: Defaulted(s.companyAssets[i]))
            && t.assetAssignments == s.assetAssignments
            && t.fixedAssets == (map i | i in s.fixedAssets :: Stamped(s.fixedAssets[i]))
            && t.fixedAssetAssignments == map[]
  {
    UpgradeRows(s, holders);
    DowngradeCompanyAssets(s, holders);
    DowngradeFixedAssets(s, holders);
    var u := Upgrade(s, holders);
    forall a | a in s.assetAssignments
      ensures HasCategory(u.fixedAssets, s.assetAssignments[a].asset)
    {
      assert s.assetAssignments[a].asset in s.companyAssets;
    }
  }

  /** The upgraded table: each company asset's row and each earlier row, stamped. */
  lemma UpgradeRows(s: State, holders: map<Uuid, Option<Uuid>>)
    requires IsOldSchema(s) && CanUpgrade(s) && holders.Keys == s.companyAssets.Keys
    ensures var u := Upgrade(s, holders);
            && u.fixedAssets.Keys == s.companyAssets.Keys + s.fixedAssets.Keys
            && (forall i :: i in s.companyAssets ==>
                  && i !in s.fixedAssets && u.fixedAssets[i].category.Some?
                  && Downgraded(u.fixedAssets[i]) == Defaulted(s.companyAssets[i]))
            && (forall i :: i in s.fixedAssets ==>
                  && i !in s.companyAssets && u.fixedAssets[i].category.None?
                  && u.fixedAssets[i].(assignmentStatus := None, holder := None) == Stamped(s.fixedAssets[i]))
  {
    hide UniqueCompanyTags, UniqueFixedTags, Downgraded, Defaulted, Upgraded;
    var u := Upgrade(s, holders);
    forall i | i in s.companyAssets
      ensures i !in s.fixedAssets && u.fixedAssets[i].category.Some?
      ensures Downgraded(u.fixedAssets[i]) == Defaulted(s.companyAssets[i])
    {
      RowRoundTrip(s.companyAssets[i], holders[i]);
    }
    forall i | i in s.fixedAssets
      ensures i !in s.companyAssets && u.fixedAssets[i].category.None?
      ensures u.fixedAssets[i].(assignmentStatus := None, holder := None) == Stamped(s.fixedAssets[i])
    {
      assert u.fixedAssets[i] == Stamped(s.fixedAssets[i]);
    }
  }

  lemma DowngradeCompanyAssets(s: State, holders: map<Uuid, Option<Uuid>>)
    requires IsOldSchema(s) && CanUpgrade(s) && holders.Keys == s.companyAssets.Keys
    ensures Downgrade(Upgrade(s, holders)).companyAssets
        == (map i | i in s.companyAssets :: Defaulted(s.companyAssets[i]))
  {
    hide IsOldSchema, CanUpgrade, Downgraded, Defaulted, Stamped, Upgraded;
    UpgradeRows(s, holders);
    hide Upgrade;
    assert Downgrade(Upgrade(s, holders)).companyAssets.Keys == s.companyAssets.Keys;
  }

  lemma DowngradeFixedAssets(s: State, holders: map<Uuid, Option<Uuid>>)
    requires IsOldSchema(s) && CanUpgrade(s) && holders.Keys == s.companyAssets.Keys
    ensures Downgrade(Upgrade(s, holders)).fixedAssets == (map i | i in s.fixedAssets :: Stamped(s.fixedAssets[i]))
  {
    UpgradeRows(s, holders);
    hide Upgrade, IsOldSchema, CanUpgrade, Stamped;
    assert Downgrade(Upgrade(s, holders)).fixedAssets.Keys == s.fixedAssets.Keys;
  }

  predicate IsOpenAssignment(s: State, a: Uuid, asset: Uuid) {
    a in s.assetAssignments && s.assetAssignments[a].asset == asset && s.assetAssignments[a].returnedDate.None?
  }

  /** What the upgraded table shows of a company asset: a holder exactly when
      one of its assignments is open, and then the holder of such a one; and a
      disposal, at its creation time, exactly when it was retired. */
  lemma UpgradeShowsTheHolder(s: State, holders: map<Uuid, Option<Uuid>>, asset: Uuid)
    requires IsHolderChoice(s, holders) && asset in s.companyAssets
    ensures asset in Upgrade(s, holders).fixedAssets
    ensures var f := Upgrade(s, holders).fixedAssets[asset];
            && (f.holder.Some? <==> exists a :: IsOpenAssignment(s, a, asset))
            && (f.holder.Some? ==>
                  exists a :: IsOpenAssignment(s, a, asset) && s.assetAssignments[a].employee == f.holder.value)
            && (f.status.Disposed? <==> s.companyAssets[asset].status.Retired?)
            && f.disposedAt == (if f.status.Disposed? then Some(s.companyAssets[asset].createdAt) else None)
            && f.salvage == 0 && f.usefulLife == 36 && f.accumulated == 0 && f.proceeds == None
            && (s.companyAssets[asset].status.Assigned? <==> f.assignmentStatus == Some(IsAssigned))
            && (s.companyAssets[asset].status.Maintenance? <==> f.assignmentStatus == Some(InMaintenance))
  {
    var holder := holders[asset];
    assert Upgrade(s, holders).fixedAssets[asset] == Stamped(Upgraded(s.companyAssets[asset], holder));
    if holder.Some? {
      var a :| a in s.assetAssignments && s.assetAssignments[a].asset == asset
        && s.assetAssignments[a].returnedDate.None? && s.assetAssignments[a].employee == holder.value;
      assert IsOpenAssignment(s, a, asset);
    }
  }

  /** Earlier fixed assets come through untouched exactly when every disposed
      one among them was disposed of at its creation time: the upgrade's UPDATE
      is not limited to the rows it inserted. */
  lemma EarlierAssetsUntouchedIff(s: State, holders: map<Uuid, Option<Uuid>>)
    requires IsOldSchema(s) && CanUpgrade(s) && holders.Keys == s.companyAssets.Keys
    ensures Downgrade(Upgrade(s, holders)).fixedAssets == s.fixedAssets
            <==> forall i :: i in s.fixedAssets && s.fixedAssets[i].status.Disposed? ==>
                   s.fixedAssets[i].disposedAt == Some(s.fixedAssets[i].createdAt)
  {
    RoundTripRestores(s, holders);
    var kept := Downgrade(Upgrade(s, holders)).fixedAssets;
    assert forall i :: i in s.fixedAssets ==> kept[i] == Stamped(s.fixedAssets[i]);
  }

  /** An asset bought at moment 1 and disposed of at moment 2 forgets when. */
  lemma DisposalDateIsOverwritten(f: FixedAsset, bought: Timestamp, sold: Timestamp)
    requires f.status.Disposed? && f.createdAt == bought && f.disposedAt == Some(sold) && bought != sold
    requires f.category.None? && f.assignmentStatus.None? && f.holder.None?
    ensures var s := State(map[], map[], map[1 := f], map[]);
            IsOldSchema(s) && CanUpgrade(s) && Downgrade(Upgrade(s, map[])).fixedAssets[1].disposedAt == Some(bought)
  {
    var s := State(map[], map[], map[1 := f], map[]);
    RoundTripRestores(s, map[]);
  }

  /** Row by row, what a round trip leaves is already in its final form. */
  lemma RoundTripRows(s: State, t: State)
    requires t.companyAssets == (map i | i in s.companyAssets :: Defaulted(s.companyAssets[i]))
    requires t.fixedAssets == (map i | i in s.fixedAssets :: Stamped(s.fixedAssets[i]))
    ensures t.companyAssets.Keys == s.companyAssets.Keys && t.fixedAssets.Keys == s.fixedAssets.Keys
    ensures forall i :: i in s.companyAssets ==>
              && t.companyAssets[i].org == s.companyAssets[i].org && t.companyAssets[i].tag == s.companyAssets[i].tag
              && Defaulted(t.companyAssets[i]) == t.companyAssets[i]
    ensures forall i :: i in s.fixedAssets ==>
              && t.fixedAssets[i] == s.fixedAssets[i].(disposedAt := t.fixedAssets[i].disposedAt)
              && Stamped(t.fixedAssets[i]) == t.fixedAssets[i]
  {
    hide Defaulted, Stamped;
    forall i | i in s.companyAssets
      ensures t.companyAssets[i].org == s.companyAssets[i].org && t.companyAssets[i].tag == s.companyAssets[i].tag
      ensures Defaulted(t.companyAssets[i]) == t.companyAssets[i]
    {
      RowRoundTrip(s.companyAssets[i], None);
      DefaultedKeepsKey(s.companyAssets[i]);
    }
    forall i | i in s.fixedAssets
      ensures t.fixedAssets[i] == s.fixedAssets[i].(disposedAt := t.fixedAssets[i].disposedAt)
      ensures Stamped(t.fixedAssets[i]) == t.fixedAssets[i]
    {
      StampedOnce(s.fixedAssets[i]);
    }
  }

  lemma RoundTripKeepsSchema(s: State, t: State)
    requires IsOldSchema(s) && CanUpgrade(s)
    requires t.companyAssets == (map i | i in s.companyAssets :: Defaulted(s.companyAssets[i]))
    requires t.fixedAssets == (map i | i in s.fixedAssets :: Stamped(s.fixedAssets[i]))
    requires t.assetAssignments == s.assetAssignments && t.fixedAssetAssignments == map[]
    ensures IsOldSchema(t) && CanUpgrade(t)
  {
    RoundTripRows(s, t);
    hide Defaulted, Stamped;
  }

  /** A second round trip can always be made, and changes nothing. */
  lemma SecondRoundTripIsIdle(s: State, holders: map<Uuid, Option<Uuid>>, again: map<Uuid, Option<Uuid>>)
    requires IsOldSchema(s) && CanUpgrade(s)
    requires holders.Keys == s.companyAssets.Keys == again.Keys
    ensures var t := Downgrade(Upgrade(s, holders));
            IsOldSchema(t) && CanUpgrade(t) && again.Keys == t.companyAssets.Keys && Downgrade(Upgrade(t, again)) == t
  {
    hide Upgrade, Downgrade, Defaulted, Stamped, IsOldSchema, CanUpgrade;
    var t := Downgrade(Upgrade(s, holders));
    RoundTripRestores(s, holders);
    RoundTripRows(s, t);
    RoundTripKeepsSchema(s, t);
    RoundTripRestores(t, again);
    var t' := Downgrade(Upgrade(t, again));
    assert t'.companyAssets == t.companyAssets;
    assert t'.fixedAssets == t.fixedAssets;
  }

  lemma DefaultedKeepsKey(a: CompanyAsset)
    ensures Defaulted(a).org == a.org && Defaulted(a).tag == a.tag
  {
  }

  lemma StampedOnce(f: FixedAsset)
    ensures Stamped(f) == f.(disposedAt := Stamped(f).disposedAt) && Stamped(Stamped(f)) == Stamped(f)
  {
  }
}

/** The metadata store the discovery services refresh: the lakes table
    keyed by lake id and the bundles table keyed by lake id and bundle id,
    with the foreign key from bundles to lakes and its cascading delete.
    Creates run the validators first. SQL and JSON encoding are not
    modelled; the tables are maps. */
module Storage {
  import opened Text
  import opened JavaText
  import opened Protos
  import LakeUtil
  import BundleUtil
  import LakeValidator
  import BundleValidator
  import opened ValidationExceptions

  const LakeExists := "Lake already exists: "
  const BundleInsertFailed := "Failed to create bundle: "

  /** The primary key of the bundles table. */
  datatype BundleKey = BundleKey(lake: string, id: string)

  /** The key `createBundle` stores a bundle under, read from its name. */
  function KeyOf(bundle: Bundle): BundleKey {
    BundleKey(BundleUtil.ExtractLakeIdFromBundle(bundle.name), BundleUtil.ExtractBundleIdAsWritten(bundle.name))
  }

  /** The bundle validator passes the bundle against the stored lakes. */
  predicate BundleAccepted(lakes: map<string, Lake>, basePath: string, bundle: Bundle) {
    BundleValidator.BundleErrors(bundle, lakes, basePath) == []
  }

  /** The lake validator passes the lake. */
  predicate LakeAccepted(basePath: string, disk: LakeValidator.Disk, lake: Lake) {
    LakeValidator.LakeErrors(lake, basePath, disk) == []
  }

  /** The bundles table after deleting a lake: its bundles go with it. */
  function DropLakeBundles(bundles: map<BundleKey, Bundle>, lakeId: string): (r: map<BundleKey, Bundle>)
    ensures forall k :: k in r <==> k in bundles && k.lake != lakeId
    ensures forall k :: k in r ==> r[k] == bundles[k]
  {
    map k | k in bundles && k.lake != lakeId :: bundles[k]
  }

  /** The bundles table after `removeStaleBundles`: the lake keeps only
      the bundles whose ids are listed. */
  function KeepListed(bundles: map<BundleKey, Bundle>, lakeId: string, keep: seq<string>): (r: map<BundleKey, Bundle>)
    ensures forall k :: k in r <==> k in bundles && (k.lake != lakeId || k.id in keep)
    ensures forall k :: k in r ==> r[k] == bundles[k]
  {
    map k | k in bundles && (k.lake != lakeId || k.id in keep) :: bundles[k]
  }

  class Store {
    var lakes: map<string, Lake>
    var bundles: map<BundleKey, Bundle>
    /** The workspace base path and what the lake validator's probes see. */
    const basePath: string
    const disk: LakeValidator.Disk

    /** Each lake is stored under its id and each bundle under its key,
        and every bundle's lake is stored. */
    ghost predicate Valid()
      reads this
    {
      (forall id :: id in lakes ==> LakeUtil.ExtractLakeId(lakes[id].name) == id) &&
      (forall k :: k in bundles ==> k.lake in lakes && KeyOf(bundles[k]) == k)
    }

    constructor(basePath: string, disk: LakeValidator.Disk)
      ensures Valid() && lakes == map[] && bundles == map[]
      ensures this.basePath == basePath && this.disk == disk
    {
      this.basePath := basePath;
      this.disk := disk;
      lakes := map[];
      bundles := map[];
    }

    function GetLake(id: string): (r: Option<Lake>)
      reads this
      ensures r.Some? <==> id in lakes
      ensures r.Some? ==> r.value == lakes[id]
    {
      if id in lakes then Some(lakes[id]) else None
    }

    function GetBundle(lakeId: string, id: string): (r: Option<Bundle>)
      reads this
      ensures r.Some? <==> BundleKey(lakeId, id) in bundles
      ensures r.Some? ==> r.value == bundles[BundleKey(lakeId, id)]
    {
      var k := BundleKey(lakeId, id);
      if k in bundles then Some(bundles[k]) else None
    }

    /** `createLake`: validate, refuse an id already stored, insert. */
    method CreateLake(lake: Lake) returns (r: Result<Lake>)
      requires Valid()
      modifies this
      ensures Valid() && bundles == old(bundles)
      ensures var id := LakeUtil.ExtractLakeId(lake.name);
        if !LakeAccepted(basePath, disk, lake) then
          r == Err(NewValidationException(LakeValidator.Summary, LakeValidator.LakeErrors(lake, basePath, disk)).message) &&
          lakes == old(lakes)
        else if id in old(lakes) then r == Err(LakeExists + id) && lakes == old(lakes)
        else r == Ok(lake) && lakes == old(lakes)[id := lake]
    {
      var thrown := LakeValidator.Validate(lake, basePath, disk);
      if thrown.Some? {
        return Err(thrown.value.message);
      }
      var id := LakeUtil.ExtractLakeId(lake.name);
      if id in lakes {
        return Err(LakeExists + id);
      }
      lakes := lakes[id := lake];
      r := Ok(lake);
    }

    /** `deleteLake`: the lake and, by the cascade, its bundles. */
    method DeleteLake(id: string) returns (deleted: bool)
      requires Valid()
      modifies this
      ensures Valid()
      ensures deleted <==> id in old(lakes)
      ensures lakes == old(lakes) - {id}
      ensures bundles == DropLakeBundles(old(bundles), id)
    {
      deleted := id in lakes;
      lakes := lakes - {id};
      bundles := DropLakeBundles(bundles, id);
    }

    /** `createBundle`: validate against the stored lakes, then insert; a
        key already stored violates the primary key. */
    method CreateBundle(bundle: Bundle) returns (r: Result<Bundle>)
      requires Valid()
      modifies this
      ensures Valid() && lakes == old(lakes)
      ensures if !BundleAccepted(lakes, basePath, bundle) then
          r == Err(NewValidationException(BundleValidator.Summary, BundleValidator.BundleErrors(bundle, lakes, basePath)).message) &&
          bundles == old(bundles)
        else if KeyOf(bundle) in old(bundles) then r == Err(BundleInsertFailed + bundle.name) && bundles == old(bundles)
        else r == Ok(bundle) && bundles == old(bundles)[KeyOf(bundle) := bundle]
    {
      var thrown := BundleValidator.Validate(bundle, lakes, basePath);
      if thrown.Some? {
        return Err(thrown.value.message);
      }
      var k := KeyOf(bundle);
      if k in bundles {
        return Err(BundleInsertFailed + bundle.name);
      }
      BundleValidator.AcceptedBundleWellFormed(bundle, lakes, basePath);
      bundles := bundles[k := bundle];
      r := Ok(bundle);
    }

    method DeleteBundle(lakeId: string, id: string) returns (deleted: bool)
      requires Valid()
      modifies this
      ensures Valid() && lakes == old(lakes)
      ensures deleted <==> BundleKey(lakeId, id) in old(bundles)
      ensures bundles == old(bundles) - {BundleKey(lakeId, id)}
    {
      deleted := BundleKey(lakeId, id) in bundles;
      bundles := bundles - {BundleKey(lakeId, id)};
    }

    /** `removeStaleBundles`: the lake keeps only the listed bundles. */
    method RemoveStaleBundles(lakeId: string, keep: seq<string>)
      requires Valid()
      modifies this
      ensures Valid() && lakes == old(lakes)
      ensures bundles == KeepListed(old(bundles), lakeId, keep)
    {
      bundles := KeepListed(bundles, lakeId, keep);
    }
  }
}

/**
 * The catalog of meal package templates an administrator sells: listing, lookup, and
 * creation, update and deletion with the schema's validators.
 */
module MealPackages {
  import opened Wrappers
  import opened Types
  import opened Errors
  import opened Records
  import Text
  import Seqs
  import Sorting
  import Store

  // ---------------------------------------------------------------- listing

  /**
   * The filter of `getMealPackages`: a present `isActive`, even empty, selects active
   * templates when it is "true" and inactive ones otherwise.
   */
  predicate Selected(p: MealPackage, isActive: Option<string>) {
    isActive.Some? ==> p.isActive == (isActive.value == "true")
  }

  /** `getMealPackages`: exactly the selected templates, fewest turns first. */
  function GetMealPackages(mps: seq<MealPackage>, isActive: Option<string>): (r: seq<MealPackage>)
    ensures forall p :: p in r <==> p in mps && Selected(p, isActive)
    ensures forall i, j | 0 <= i < j < |r| :: r[i].turns <= r[j].turns
    ensures multiset(r) == multiset(Seqs.Filter(mps, (p: MealPackage) => Selected(p, isActive)))
  {
    var selected := Seqs.Filter(mps, (p: MealPackage) => Selected(p, isActive));
    var r := Sorting.SortBy(selected, (p: MealPackage) => p.turns);
    forall p ensures p in r <==> p in selected {
      Sorting.SortKeepsElements(selected, (p: MealPackage) => p.turns, p);
    }
    r
  }

  /** Without the parameter every template is listed, active or not. */
  lemma NoFilterListsAll(mps: seq<MealPackage>)
    ensures forall p :: p in GetMealPackages(mps, None) <==> p in mps
  {
  }

  /** `getMealPackageById`: the template with that id, or PACKAGE_NOT_FOUND. */
  function GetMealPackageById(mps: seq<MealPackage>, id: nat): (r: Result<MealPackage>)
    ensures r.Err? <==> forall p | p in mps :: p.id != id
    ensures r.Err? ==> r == Raise(PackageNotFound)
    ensures r.Ok? ==> r.value in mps && r.value.id == id
  {
    match FindTemplate(mps, id)
    case None => Raise(PackageNotFound)
    case Some(k) => Ok(mps[k])
  }

  // ---------------------------------------------------------------- create

  /** The body fields the handlers read; an absent field is `None`. */
  datatype PackageInput = PackageInput(
    name: Option<string>,
    turns: Option<int>,
    price: Option<int>,
    validDays: Option<int>,
    qrCodeImage: Option<string>,
    isActive: Option<bool>,
    packageType: Option<string>)

  /** The validators of a new template, in schema order, after `trim` and the defaults. */
  function CreateFailures(input: PackageInput): seq<PathFailure> {
    PackageNameFailures(Text.Trim(input.name.GetOr("")))
    + TurnsFailures(input.turns)
    + PriceFailures(input.price)
    + ValidDaysFailures(input.validDays.GetOr(DefaultValidDays))
  }

  /**
   * The template `createMealPackage` builds: only name, turns, price, validDays and
   * qrCodeImage are taken from the body; the rest are the schema's defaults.
   */
  function Created(id: nat, input: PackageInput): MealPackage
    requires input.turns.Some? && input.price.Some?
  {
    MealPackage(id, Text.Trim(input.name.GetOr("")), input.turns.value, input.price.value,
                input.validDays.GetOr(DefaultValidDays), input.qrCodeImage.GetOr(""), Normal, true)
  }

  /**
   * A template that passed the validators is valid, active and of the normal type, and
   * whatever type or activity the body asked for plays no part.
   */
  lemma CreatedIsNormal(id: nat, input: PackageInput, t: Option<string>, a: Option<bool>)
    requires CreateFailures(input) == []
    ensures input.turns.Some? && input.price.Some?
    ensures ValidMealPackage(Created(id, input))
    ensures Created(id, input).packageType == Normal && Created(id, input).isActive
    ensures CreateFailures(input.(packageType := t, isActive := a)) == []
    ensures Created(id, input.(packageType := t, isActive := a)) == Created(id, input)
  {
  }

  /**
   * `createMealPackage`: a refused field fails with the schema's validation error and
   * changes nothing; otherwise the new template is appended under a fresh id.
   */
  method CreateMealPackage(db: Store.Db, input: PackageInput) returns (r: Result<MealPackage>)
    requires db.Valid()
    modifies db`mealPackages, db`nextId
    ensures db.Valid()
    ensures CreateFailures(input) != [] ==>
      r == Err(Invalid("MealPackage", CreateFailures(input))) && unchanged(db)
    ensures CreateFailures(input) == [] ==>
      && input.turns.Some? && input.price.Some?
      && r == Ok(Created(old(db.nextId), input))
      && db.nextId == old(db.nextId) + 1
      && db.mealPackages == old(db.mealPackages) + [Created(old(db.nextId), input)]
  {
    var failures := CreateFailures(input);
    if failures != [] {
      return Err(Invalid("MealPackage", failures));
    }
    assert forall x | x in db.mealPackages :: x.id < db.nextId;
    var id := db.NewId();
    var p := Created(id, input);
    CreatedIsNormal(id, input, input.packageType, input.isActive);
    db.AddMealPackage(p);
    r := Ok(p);
  }

  // ---------------------------------------------------------------- update

  /** The validators `runValidators` runs on an update: only those of the fields given. */
  function UpdateFailures(input: PackageInput): seq<PathFailure> {
    (if input.name.Some? then PackageNameFailures(Text.Trim(input.name.value)) else [])
    + (if input.turns.Some? then TurnsFailures(input.turns) else [])
    + (if input.price.Some? then PriceFailures(input.price) else [])
    + (if input.validDays.Some? then ValidDaysFailures(input.validDays.value) else [])
  }

  /** The `$set` of `updateMealPackage`: the six editable fields that were given; the rest is kept. */
  function Updated(p: MealPackage, input: PackageInput): MealPackage {
    p.(name := if input.name.Some? then Text.Trim(input.name.value) else p.name,
       turns := input.turns.GetOr(p.turns),
       price := input.price.GetOr(p.price),
       validDays := input.validDays.GetOr(p.validDays),
       qrCodeImage := input.qrCodeImage.GetOr(p.qrCodeImage),
       isActive := input.isActive.GetOr(p.isActive))
  }

  /**
   * An update that passed its validators keeps a valid template valid, keeps its id, and
   * never changes its type, whatever the body says.
   */
  lemma UpdatedStaysValid(p: MealPackage, input: PackageInput, t: Option<string>)
    requires ValidMealPackage(p) && UpdateFailures(input) == []
    ensures ValidMealPackage(Updated(p, input))
    ensures Updated(p, input).id == p.id && Updated(p, input).packageType == p.packageType
    ensures Updated(p, input.(packageType := t)) == Updated(p, input)
  {
  }

  /** A body without any editable field leaves the template as it was. */
  lemma EmptyUpdateKeeps(p: MealPackage, t: Option<string>)
    ensures Updated(p, PackageInput(None, None, None, None, None, None, t)) == p
  {
  }

  /**
   * `updateMealPackage`: the update validators of the given fields run first and refuse with
   * the document-less ValidationError, then an unknown id fails with PACKAGE_NOT_FOUND;
   * otherwise the template is updated in place and returned.
   */
  method UpdateMealPackage(db: Store.Db, id: nat, input: PackageInput) returns (r: Result<MealPackage>)
    requires db.Valid()
    modifies db`mealPackages
    ensures db.Valid()
    ensures UpdateFailures(input) != [] ==>
      r == Err(UpdateInvalid(UpdateFailures(input))) && unchanged(db)
    ensures UpdateFailures(input) == [] && FindTemplate(old(db.mealPackages), id).None? ==>
      r == Raise(PackageNotFound) && unchanged(db)
    ensures UpdateFailures(input) == [] && FindTemplate(old(db.mealPackages), id).Some? ==>
      var k := FindTemplate(old(db.mealPackages), id).value;
      && r == Ok(Updated(old(db.mealPackages)[k], input))
      && db.mealPackages == old(db.mealPackages)[k := Updated(old(db.mealPackages)[k], input)]
  {
    var failures := UpdateFailures(input);
    if failures != [] {
      return Err(UpdateInvalid(failures));
    }
    var k := FindTemplate(db.mealPackages, id);
    if k.None? {
      return Raise(PackageNotFound);
    }
    var p := db.mealPackages[k.value];
    assert ValidMealPackage(p);
    UpdatedStaysValid(p, input, input.packageType);
    db.ReplaceMealPackage(k.value, Updated(p, input));
    r := Ok(Updated(p, input));
  }

  // ---------------------------------------------------------------- delete

  /**
   * `deleteMealPackage`: an unknown id fails with PACKAGE_NOT_FOUND; otherwise that template
   * is removed, the others keep their order, and no template with that id is left. Requests
   * and purchased packages that refer to it are not touched.
   */
  method DeleteMealPackage(db: Store.Db, id: nat) returns (r: Result<()>)
    requires db.Valid()
    modifies db`mealPackages
    ensures db.Valid()
    ensures FindTemplate(old(db.mealPackages), id).None? ==> r == Raise(PackageNotFound) && unchanged(db)
    ensures FindTemplate(old(db.mealPackages), id).Some? ==>
      var k := FindTemplate(old(db.mealPackages), id).value;
      && r == Ok(())
      && db.mealPackages == old(db.mealPackages)[..k] + old(db.mealPackages)[k + 1..]
      && (forall p | p in db.mealPackages :: p.id != id)
  {
    var k := FindTemplate(db.mealPackages, id);
    if k.None? {
      return Raise(PackageNotFound);
    }
    RemovalLeavesNoTwin(db.mealPackages, k.value);
    db.DeleteMealPackage(k.value);
    r := Ok(());
  }

  /** With distinct ids, removing a template removes its id from the table. */
  lemma RemovalLeavesNoTwin(mps: seq<MealPackage>, k: nat)
    requires k < |mps|
    requires forall i, j | 0 <= i < j < |mps| :: mps[i].id != mps[j].id
    ensures forall p | p in mps[..k] + mps[k + 1..] :: p.id != mps[k].id
  {
    forall p | p in mps[..k] + mps[k + 1..] ensures p.id != mps[k].id {
      var i :| 0 <= i < |mps[..k] + mps[k + 1..]| && (mps[..k] + mps[k + 1..])[i] == p;
      if i < k {
        assert p == mps[i];
      } else {
        assert p == mps[i + 1];
      }
    }
  }
}

/**
 * The `/foods` endpoints: log an entry for oneself, with an optional photo,
 * and read one's own history. The caller is the id the authentication
 * dependency resolved; the formatted `%Y%m%d_%H%M%S` time of the upload is a
 * parameter.
 */
module FoodRouter {
  import opened Common
  import opened UserModel
  import opened FoodSchema
  import opened Tables
  import Decimal

  type FoodRow = Row<StoredFood>

  const UploadDir: string := "uploads/food_images"
  const CreateForbidden := HttpError(403, "Not authorized to create entries for other users")
  const ViewForbidden := HttpError(403, "Not authorized to view entries for other users")

  /** The multipart form of POST /foods/log. A field left out of the form is `None`. */
  datatype FoodForm = FoodForm(
    userId: int,
    foodName: string,
    mode: Option<ModeType>,
    nutrients: Nutrients,
    image: Option<UploadFile>)

  /** Where an uploaded photo is saved: `UPLOAD_DIR` joined with `{user_id}_{timestamp}_{filename}`. */
  function ImagePath(userId: int, timestamp: string, filename: string): (p: string)
    ensures |p| > |UploadDir| + 1 && p[..|UploadDir| + 1] == UploadDir + "/"
    ensures |p| >= |filename| && p[|p| - |filename|..] == filename
  {
    UploadDir + "/" + Decimal.IntToString(userId) + "_" + timestamp + "_" + filename
  }

  /** The position of the first `c` in `s`. */
  function IndexOf(s: string, c: char): (r: Option<nat>)
    ensures r.Some? ==> r.value < |s| && s[r.value] == c
    ensures r.Some? ==> forall j :: 0 <= j < r.value ==> s[j] != c
    ensures r.None? ==> forall j :: 0 <= j < |s| ==> s[j] != c
    decreases |s|
  {
    if s == [] then None
    else if s[0] == c then Some(0)
    else
      match IndexOf(s[1..], c)
      case None => None
      case Some(k) => Some(k + 1)
  }

  /** The owner an image path names: the integer before the first `_` of the file name. */
  function ImageOwner(path: string): Option<int> {
    var prefix := UploadDir + "/";
    if |path| < |prefix| || path[..|prefix|] != prefix then None
    else
      var name := path[|prefix|..];
      match IndexOf(name, '_')
      case None => None
      case Some(k) => Decimal.ParseInt(name[..k])
  }

  /** A saved photo's path names its owner, so photos of different users never share a path. */
  lemma ImageOwnerRoundTrip(userId: int, timestamp: string, filename: string)
    ensures ImageOwner(ImagePath(userId, timestamp, filename)) == Some(userId)
  {
    var prefix := UploadDir + "/";
    var digits := Decimal.IntToString(userId);
    var rest := timestamp + "_" + filename;
    var path := ImagePath(userId, timestamp, filename);
    var name := digits + "_" + rest;
    assert path == prefix + name;
    assert path[..|prefix|] == prefix;
    assert path[|prefix|..] == name;
    var k := IndexOf(name, '_');
    assert name[|digits|] == '_';
    assert forall j :: 0 <= j < |digits| ==> name[j] == digits[j];
    assert k == Some(|digits|);
    assert name[..|digits|] == digits;
    Decimal.ParseIntRoundTrip(userId);
  }

  /** The stored part of a new entry: the form's fields as supplied and the photo's path, if any. */
  function NewEntry(form: FoodForm, timestamp: string): (e: StoredFood)
    ensures e.base.foodName == form.foodName && e.base.nutrients == form.nutrients
    ensures e.base.mode == ModeOrDefault(form.mode)
    ensures e.imagePath.None? <==> form.image.None?
    ensures form.image.Some? ==> e.imagePath == Some(ImagePath(form.userId, timestamp, form.image.value.filename))
    ensures e.imagePath.Some? ==> ImageOwner(e.imagePath.value) == Some(form.userId)
  {
    var imagePath :=
      if form.image.Some? then
        ImageOwnerRoundTrip(form.userId, timestamp, form.image.value.filename);
        Some(ImagePath(form.userId, timestamp, form.image.value.filename))
      else None;
    StoredFood(FoodEntryBase(form.foodName, ModeOrDefault(form.mode), form.nutrients), imagePath)
  }

  /**
   * A form that supplies only owner and name stores the defaults of the
   * JSON payload: mode "swasthya" and every nutrition field null.
   */
  lemma BareFormStoresDefaults(userId: int, foodName: string, image: Option<UploadFile>, timestamp: string)
    ensures NewEntry(FoodForm(userId, foodName, None, NoNutrients(), image), timestamp).base == MinimalFoodEntryBase(foodName)
  {
  }

  /** The `food_entries` table: rows in insertion order, the next primary key, the clock. */
  class FoodTable {
    var rows: seq<FoodRow>
    var nextId: nat
    var clock: nat

    ghost predicate Valid()
      reads this
    {
      Consistent(rows, nextId, clock)
    }

    constructor ()
      ensures Valid() && rows == []
    {
      rows, nextId, clock := [], 1, 0;
    }

    /**
     * POST /foods/log. The ownership guard runs before a photo path is
     * derived or anything is stored; on success exactly one row is
     * appended, owned by the caller, and it heads the caller's history.
     */
    method CreateFoodEntry(callerId: int, form: FoodForm, timestamp: string) returns (r: Result<FoodRow>)
      requires Valid()
      modifies this
      ensures Valid()
      ensures form.userId != callerId ==>
        r == Err(CreateForbidden) && rows == old(rows) && nextId == old(nextId) && clock == old(clock)
      ensures form.userId == callerId ==>
        && r == Ok(Stamped(old(nextId), callerId, old(clock), NewEntry(form, timestamp)))
        && rows == old(rows) + [r.value]
        && nextId == old(nextId) + 1 && clock == old(clock) + 1
        && OwnedNewestFirst(rows, callerId) == [r.value] + OwnedNewestFirst(old(rows), callerId)
    {
      if form.userId != callerId {
        return Err(CreateForbidden);
      }
      var imagePath: Option<string> := None;
      if form.image.Some? {
        imagePath := Some(ImagePath(form.userId, timestamp, form.image.value.filename));
      }
      var entry := StoredFood(FoodEntryBase(form.foodName, ModeOrDefault(form.mode), form.nutrients), imagePath);
      assert entry == NewEntry(form, timestamp);
      var row := Stamped(nextId, form.userId, clock, entry);
      InsertKeepsConsistent(rows, nextId, clock, form.userId, entry);
      InsertHeadsHistory(rows, row, callerId);
      rows := rows + [row];
      nextId, clock := nextId + 1, clock + 1;
      r := Ok(row);
    }

    /**
     * GET /foods/history/{user_id}. Another user's id is refused; the
     * caller gets exactly their own entries, newest first.
     */
    function GetFoodHistory(callerId: int, userId: int): (r: Result<seq<FoodRow>>)
      reads this
      requires Valid()
      ensures userId != callerId ==> r == Err(ViewForbidden)
      ensures userId == callerId ==> r.Ok?
      ensures r.Ok? ==> forall i :: 0 <= i < |r.value| ==> r.value[i] in rows && r.value[i].userId == userId
      ensures r.Ok? ==> forall i :: 0 <= i < |rows| && rows[i].userId == userId ==> rows[i] in r.value
      ensures r.Ok? ==> NewestFirst(r.value)
    {
      if userId != callerId then Err(ViewForbidden)
      else
        OwnedNewestFirstIsOrdered(rows, userId);
        Ok(OwnedNewestFirst(rows, userId))
    }
  }
}

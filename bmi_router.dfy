/**
 * The `/bmi` endpoints: create a record for oneself and read one's own
 * history. The caller is the id the authentication dependency resolved.
 */
module BmiRouter {
  import opened Common
  import opened UserModel
  import opened BmiSchema
  import opened Tables

  type BmiRow = Row<BmiRecordBase>

  const CreateForbidden := HttpError(403, "Not authorized to create records for other users")
  const ViewForbidden := HttpError(403, "Not authorized to view records for other users")

  /** The `bmi_records` table: rows in insertion order, the next primary key, the clock. */
  class BmiTable {
    var rows: seq<BmiRow>
    var nextId: nat
    var clock: nat

    ghost predicate Valid()
      reads this
    {
      Consistent(rows, nextId, clock)
    }

    constructor ()
      ensures Valid() && rows == []
    {
      rows, nextId, clock := [], 1, 0;
    }

    /**
     * POST /bmi. The ownership guard runs before anything is stored; on
     * success exactly one row is appended, holding the payload's fields
     * as supplied, and it heads the caller's history.
     */
    method CreateBmiRecord(callerId: int, bmiData: BmiRecordCreate) returns (r: Result<BmiRow>)
      requires Valid()
      modifies this
      ensures Valid()
      ensures bmiData.userId != callerId ==>
        r == Err(CreateForbidden) && rows == old(rows) && nextId == old(nextId) && clock == old(clock)
      ensures bmiData.userId == callerId ==>
        && r == Ok(Stamped(old(nextId), callerId, old(clock), BaseOf(bmiData)))
        && rows == old(rows) + [r.value]
        && nextId == old(nextId) + 1 && clock == old(clock) + 1
        && OwnedNewestFirst(rows, callerId) == [r.value] + OwnedNewestFirst(old(rows), callerId)
    {
      if bmiData.userId != callerId {
        return Err(CreateForbidden);
      }
      var row := Stamped(nextId, bmiData.userId, clock, BaseOf(bmiData));
      InsertKeepsConsistent(rows, nextId, clock, bmiData.userId, BaseOf(bmiData));
      InsertHeadsHistory(rows, row, callerId);
      rows := rows + [row];
      nextId, clock := nextId + 1, clock + 1;
      r := Ok(row);
    }

    /**
     * GET /bmi/{user_id}. Another user's id is refused and discloses
     * nothing; the caller gets exactly their own rows, newest first.
     */
    function GetBmiHistory(callerId: int, userId: int): (r: Result<seq<BmiRow>>)
      reads this
      requires Valid()
      ensures userId != callerId ==> r == Err(ViewForbidden)
      ensures userId == callerId ==> r.Ok?
      ensures r.Ok? ==> forall i :: 0 <= i < |r.value| ==> r.value[i] in rows && r.value[i].userId == userId
      ensures r.Ok? ==> forall i :: 0 <= i < |rows| && rows[i].userId == userId ==> rows[i] in r.value
      ensures r.Ok? ==> NewestFirst(r.value)
    {
      if userId != callerId then Err(ViewForbidden)
      else
        OwnedNewestFirstIsOrdered(rows, userId);
        Ok(OwnedNewestFirst(rows, userId))
    }
  }
}

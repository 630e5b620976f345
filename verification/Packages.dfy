/** The parcel aggregate and its storage episode (package.entity.ts, locker-assignment.entity.ts).
    Values: every transition returns a copy. */
module Packages {
  import opened Common

  datatype Status = Registered | Stored | Retrieved {
    /** How far along its life a parcel is. */
    function Stage(): nat {
      match this
      case Registered => 0
      case Stored => 1
      case Retrieved => 2
    }
  }

  datatype LockerAssignment = LockerAssignment(
    id: Id, lockerId: Id, pickupCodeHash: string, storedByAgent: Option<string>,
    storedAt: int, retrievedAt: Option<int>, storageFeeMinor: Option<int>)
  {
    predicate IsActive() {
      retrievedAt.None?
    }

    function WithPickupCodeHash(hash: string): LockerAssignment {
      this.(pickupCodeHash := hash)
    }

    /** Closed, with `now` clamped so as not to lie before `storedAt`. */
    function Close(now: int, fee: int): LockerAssignment {
      this.(retrievedAt := Some(if now < storedAt then storedAt else now), storageFeeMinor := Some(fee))
    }
  }

  function Open(id: Id, lockerId: Id, hash: string, agent: Option<string>, now: int): LockerAssignment {
    LockerAssignment(id, lockerId, hash, agent, now, None, None)
  }

  datatype PackageError = AlreadyStored | AlreadyRetrieved

  datatype Package = Package(
    id: Id, customerId: Id, size: Size, status: Status, updatedAt: int,
    assignment: Option<LockerAssignment>)
  {
    predicate IsStored() {
      status.Stored? && assignment.Some? && assignment.value.IsActive()
    }

    /** REGISTERED to STORED, with a fresh episode at `lockerId`. */
    function StoreInLocker(assignmentId: Id, lockerId: Id, hash: string, agent: Option<string>, now: int)
      : Result<Package, PackageError>
    {
      if !status.Registered? then Err(AlreadyStored)
      else Ok(this.(status := Stored, updatedAt := now,
                    assignment := Some(Open(assignmentId, lockerId, hash, agent, now))))
    }

    /** A new code on the open episode; nothing else about it changes. */
    function ReissuePickupCode(hash: string, now: int): Result<Package, PackageError> {
      if !IsStored() then Err(AlreadyRetrieved)
      else Ok(this.(updatedAt := now, assignment := Some(assignment.value.WithPickupCodeHash(hash))))
    }

    /** STORED to RETRIEVED, closing the episode with the fee. */
    function Retrieve(now: int, fee: int): Result<Package, PackageError> {
      if !IsStored() then Err(AlreadyRetrieved)
      else Ok(this.(status := Retrieved, updatedAt := now, assignment := Some(assignment.value.Close(now, fee))))
    }
  }
}

/** Vocabulary every part of the model shares. */
module Common {
  datatype Option<+T> = None | Some(value: T)

  /** A value, or the error the source throws instead. */
  datatype Result<+T, +E> = Ok(value: T) | Err(error: E)

  /** Opaque identifiers (UUIDs in the source): only equality means anything. */
  type Id = string

  /** Ordered parcel and locker size (locker-size.ts). */
  datatype Size = Small | Medium | Large {
    function Rank(): int {
      match this
      case Small => 10
      case Medium => 20
      case Large => 30
    }

    /** A locker of this size takes a parcel that needs `required`. */
    predicate Fits(required: Size) {
      Rank() >= required.Rank()
    }
  }

  /** A parcel fits a locker of its own size, a small one fits any, a large one only a large. */
  lemma FitsMeans(locker: Size, parcel: Size)
    ensures locker.Fits(parcel) <==> locker == parcel || locker == Large || parcel == Small
  {
  }
}

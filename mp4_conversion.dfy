/**
 * `PIOMP4Conversion` (PutKit/Models/PIOMP4Conversion.h) and the statuses of
 * PutKit/Models/PIOMP4Status.h: which optional fields a conversion record
 * carries in which status.
 */
module MP4Conversion {
  import opened Wrappers

  /** The seven declared `PIOMP4Status` constants. */
  datatype MP4Status = InQueue | Preparing | Converting | Finishing | Completed | Unavailable | Unknown

  /** A conversion record; a field the header calls `NaN` is `None`. */
  datatype Conversion = Conversion(status: MP4Status, percentageCompleted: Option<int>, size: Option<int>)

  /** The statuses in which no percentage has been reached yet. */
  predicate HasNoPercentage(status: MP4Status)
  {
    status == InQueue || status == Preparing || status == Unavailable
  }

  /** The per-status field rules of the record. */
  predicate WellFormed(c: Conversion)
  {
    (HasNoPercentage(c.status) ==> c.percentageCompleted.None?) &&
    (c.status != Completed ==> c.size.None?)
  }

  datatype ConversionError = UnexpectedPercentage(status: MP4Status) | UnexpectedSize(status: MP4Status)

  /** Builds a record from decoded fields, refusing a field its status rules out. */
  function MakeConversion(status: MP4Status, percentageCompleted: Option<int>, size: Option<int>): (r: Result<Conversion, ConversionError>)
    ensures r.Success? <==> WellFormed(Conversion(status, percentageCompleted, size))
    ensures r.Success? ==> r.value == Conversion(status, percentageCompleted, size)
    ensures r.Failure? && r.error.UnexpectedPercentage? ==> HasNoPercentage(status) && percentageCompleted.Some?
    ensures r.Failure? && r.error.UnexpectedSize? ==> status != Completed && size.Some?
  {
    if HasNoPercentage(status) && percentageCompleted.Some? then Failure(UnexpectedPercentage(status))
    else if status != Completed && size.Some? then Failure(UnexpectedSize(status))
    else Success(Conversion(status, percentageCompleted, size))
  }

  /** A queued, preparing or unavailable conversion carries neither a percentage nor a size. */
  lemma WaitingConversionIsEmpty(c: Conversion)
    requires WellFormed(c) && HasNoPercentage(c.status)
    ensures c.percentageCompleted.None? && c.size.None?
  {
  }

  /** Only a completed conversion can report a size; a converting one may report a percentage. */
  lemma SizeOnlyWhenCompleted(c: Conversion)
    requires WellFormed(c) && c.size.Some?
    ensures c.status == Completed
  {
  }
}

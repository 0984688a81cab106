/** `PermitData`: the permit record, its two constructors, the `isValid` and
    `isComplete` checks, and what a Gson round trip does to it. */
module PermitData {
  import opened JavaLang

  /** A Java `String` field: `None` is null. */
  type JString = Option<string>

  /** One parking permit. `price` is serialised under the JSON name "amountPaid";
      `displayFlipped` is an orientation hint carried along for the display. */
  datatype Permit = Permit(
    permitNumber: JString,
    plateNumber: JString,
    vehicleName: JString,
    validFrom: JString,
    validTo: JString,
    barcodeValue: JString,
    barcodeLabel: JString,
    price: JString,
    displayFlipped: bool)

  /** A string field that is neither null nor empty. */
  predicate Present(s: JString) {
    s.Some? && s.value != ""
  }

  /** The no-argument constructor: every string field starts as "". */
  function DefaultPermit(): (p: Permit)
    ensures p.permitNumber == p.plateNumber == p.vehicleName == p.validFrom == Some("")
    ensures p.validTo == p.barcodeValue == p.barcodeLabel == p.price == Some("")
    ensures !p.displayFlipped
    ensures !IsValid(p) && !IsComplete(p)
  {
    Permit(Some(""), Some(""), Some(""), Some(""), Some(""), Some(""), Some(""), Some(""), false)
  }

  /** The six-argument constructor: sets those six fields and leaves the vehicle
      name and price at "" and the orientation flag at false. */
  function NewPermit(permitNumber: JString, plateNumber: JString, validFrom: JString,
                     validTo: JString, barcodeValue: JString, barcodeLabel: JString): (p: Permit)
    ensures p.permitNumber == permitNumber && p.plateNumber == plateNumber
    ensures p.validFrom == validFrom && p.validTo == validTo
    ensures p.barcodeValue == barcodeValue && p.barcodeLabel == barcodeLabel
    ensures p == DefaultPermit().(permitNumber := permitNumber, plateNumber := plateNumber,
                                  validFrom := validFrom, validTo := validTo,
                                  barcodeValue := barcodeValue, barcodeLabel := barcodeLabel)
    ensures IsValid(p) <==> Present(permitNumber)
  {
    Permit(permitNumber, plateNumber, Some(""), validFrom, validTo, barcodeValue, barcodeLabel,
           Some(""), false)
  }

  /** `isValid()`: the permit has a number. */
  predicate IsValid(p: Permit)
    ensures IsValid(p) <==> p.permitNumber.Some? && |p.permitNumber.value| > 0
  {
    Present(p.permitNumber)
  }

  /** `isComplete()`: every field the display needs is present. */
  predicate IsComplete(p: Permit)
    ensures IsComplete(p) ==> IsValid(p)
  {
    && Present(p.permitNumber)
    && Present(p.plateNumber)
    && Present(p.validFrom)
    && Present(p.validTo)
    && Present(p.barcodeValue)
    && Present(p.barcodeLabel)
  }

  /** The fields `isComplete` ignores can be anything. */
  lemma CompleteIgnoresExtras(p: Permit, vehicleName: JString, price: JString, flipped: bool)
    ensures IsComplete(p.(vehicleName := vehicleName, price := price, displayFlipped := flipped))
            == IsComplete(p)
    ensures IsValid(p.(vehicleName := vehicleName, price := price, displayFlipped := flipped))
            == IsValid(p)
  {
  }

  /** The six-argument constructor yields a complete permit exactly when all six
      arguments are present. */
  lemma NewPermitComplete(permitNumber: JString, plateNumber: JString, validFrom: JString,
                          validTo: JString, barcodeValue: JString, barcodeLabel: JString)
    ensures IsComplete(NewPermit(permitNumber, plateNumber, validFrom, validTo, barcodeValue, barcodeLabel))
            <==> Present(permitNumber) && Present(plateNumber) && Present(validFrom)
                 && Present(validTo) && Present(barcodeValue) && Present(barcodeLabel)
  {
  }

  // ---------------------------------------------------------------- JSON (Gson)

  /** What `gson.fromJson(json, PermitData.class)` gives: a permit, null (for the
      text "null" or an empty body), or a thrown `JsonSyntaxException`. */
  datatype JsonResult = Value(permit: Permit) | JsonNull | SyntaxError

  /** The JSON library, as a pair of functions. */
  datatype Codec = Codec(toJson: Permit -> string, fromJson: string -> JsonResult)

  function NullToEmpty(s: JString): (r: JString)
    ensures r.Some? && (s.Some? ==> r == s)
    ensures Present(r) <==> Present(s)
  {
    if s.None? then Some("") else s
  }

  /** The permit that comes back from a Gson round trip: `toJson` leaves null
      fields out, and `fromJson` keeps the constructor's "" for missing fields. */
  function Normalized(p: Permit): (q: Permit)
    ensures IsValid(q) == IsValid(p) && IsComplete(q) == IsComplete(p)
    ensures q.permitNumber.Some? && q.validFrom.Some? && q.validTo.Some? && q.price.Some?
    ensures p.permitNumber.Some? ==> q.permitNumber == p.permitNumber
    ensures q.displayFlipped == p.displayFlipped
  {
    Permit(NullToEmpty(p.permitNumber), NullToEmpty(p.plateNumber), NullToEmpty(p.vehicleName),
           NullToEmpty(p.validFrom), NullToEmpty(p.validTo), NullToEmpty(p.barcodeValue),
           NullToEmpty(p.barcodeLabel), NullToEmpty(p.price), p.displayFlipped)
  }

  /** A permit without null fields survives the round trip unchanged. */
  lemma NormalizedNoNulls(p: Permit)
    requires p.permitNumber.Some? && p.plateNumber.Some? && p.vehicleName.Some?
    requires p.validFrom.Some? && p.validTo.Some? && p.barcodeValue.Some?
    requires p.barcodeLabel.Some? && p.price.Some?
    ensures Normalized(p) == p
  {
  }

  /** The round-trip law Gson obeys for this class. */
  ghost predicate GsonLike(c: Codec) {
    forall p :: c.fromJson(c.toJson(p)) == Value(Normalized(p))
  }
}

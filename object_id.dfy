/** MongoDB document identifiers and their 24-digit hexadecimal text, the
    `id` field of every response and the argument of the attendance delete. */
module ObjectIds {
  import opened Common

  /** 16^24 = 2^96: one more than the largest twelve-byte number. */
  const OID_LIMIT: nat := 0x1_0000_0000_0000_0000_0000_0000

  lemma OidLimitIsPow()
    ensures Pow(16, 24) == OID_LIMIT
  {
    assert Pow(16, 2) == 0x100;
    assert Pow(16, 4) == 0x10000;
    assert Pow(16, 6) == 0x1000000;
    assert Pow(16, 8) == 0x100000000;
    assert Pow(16, 10) == 0x10000000000;
    assert Pow(16, 12) == 0x1000000000000;
    assert Pow(16, 14) == 0x100000000000000;
    assert Pow(16, 16) == 0x10000000000000000;
    assert Pow(16, 18) == 0x1000000000000000000;
    assert Pow(16, 20) == 0x100000000000000000000;
    assert Pow(16, 22) == 0x10000000000000000000000;
    assert Pow(16, 24) == 0x1000000000000000000000000;
  }

  /** The twelve bytes of an ObjectId, read as one number. */
  type ObjectId = n: nat | n < OID_LIMIT

  /** `str(ObjectId)`: 24 lower-case hexadecimal digits. */
  function OidText(o: ObjectId): (s: string)
    ensures |s| == 24
  {
    FixedDigits(o, 16, 24)
  }

  /** `ObjectId(text)` for a text of 24 hexadecimal digits of either case;
      None stands for the `InvalidId` exception. bson also accepts
      24-character texts with white space between digit pairs (it decodes
      with `bytes.fromhex`); those are treated as invalid here. */
  function ParseObjectId(s: string): (r: Option<ObjectId>)
    ensures r.Some? ==> |s| == 24
  {
    if |s| == 24 then
      match ParseDigits(s, 16)
      case Some(n) => ParseDigitsBound(s, 16); OidLimitIsPow(); Some(n)
      case None => None
    else None
  }

  /** The text of an id, handed back to the server, names the same document. */
  lemma ObjectIdRoundTrip(o: ObjectId)
    ensures ParseObjectId(OidText(o)) == Some(o)
  {
    OidLimitIsPow();
    FixedDigitsRoundTrip(o, 16, 24);
  }

  /** Different documents have different id texts. */
  lemma OidTextInjective(a: ObjectId, b: ObjectId)
    ensures OidText(a) == OidText(b) <==> a == b
  {
    ObjectIdRoundTrip(a);
    ObjectIdRoundTrip(b);
  }
}

/**
 One entry of the file store as bytes: ten digits of unix expiry, three of the
 millisecond, eight hexadecimal digits of key length, the key, the value.
 Times are nanoseconds since the unix epoch.
 */
module FileEntry {
  import opened Wrappers
  import opened Numerals

  const HEADER: nat := 21
  const SECOND: int := 1_000_000_000
  const MILLISECOND: int := 1_000_000
  const LAST_UNIX: int := 9_999_999_999

  datatype Entry = Entry(key: string, value: string, expires: int)

  /** The second an entry is filed under: past the tenth digit, or before 1970, it is the last one. */
  function Seconds(expires: int): nat {
    var unix := expires / SECOND;
    if unix > LAST_UNIX || unix < 0 then LAST_UNIX else unix
  }

  function Thousandths(expires: int): nat {
    var unix := expires / SECOND;
    if unix > LAST_UNIX || unix < 0 then 0 else expires % SECOND / MILLISECOND
  }

  function Encode(key: string, value: string, expires: int): string {
    Padded(Seconds(expires), 10, 10) + Padded(Thousandths(expires), 10, 3) + Padded(|key|, 16, 8) + key + value
  }

  /**
   Total on every byte string. The 32-bit width of the millisecond field is not checked:
   three characters cannot leave it.
   */
  function Decode(raw: string): Option<Entry> {
    if |raw| < HEADER then None
    else
      match (ParseInt(raw[..10]), ParseInt(raw[10..13]), ParseUint(raw[13..HEADER], 16, 32))
      case (Some(unix), Some(millis), Some(length)) =>
        if |raw| < HEADER + length then None
        else Some(Entry(raw[HEADER..HEADER + length], raw[HEADER + length..],
                        unix * SECOND + millis * MILLISECOND))
      case _ => None
  }

  /** What is left of an expiry on disk: cut to the millisecond, or the last second there is. */
  function StoredExpiry(expires: int): int {
    if 0 <= expires < (LAST_UNIX + 1) * SECOND then expires - expires % MILLISECOND
    else LAST_UNIX * SECOND
  }

  lemma ParsesPadded(n: nat, width: nat)
    requires 0 < width && n < Pow(10, width) && n <= MAX_INT64
    ensures |Padded(n, 10, width)| == width
    ensures ParseInt(Padded(n, 10, width)) == Some(n)
  {
    var s := Padded(n, 10, width);
    PaddedReadsBack(n, 10, width);
    assert s[0] in s;
    assert DigitValue(s[0], 10).Some?;
  }

  lemma PowersUsed()
    ensures Pow(10, 10) == 10_000_000_000 && Pow(10, 3) == 1000
    ensures Pow(16, 8) == Pow(2, 32) == 0x1_0000_0000
  {
    assert Pow(10, 3) == 1000;
    assert Pow(10, 6) == 1_000_000;
    assert Pow(10, 9) == 1_000_000_000;
    assert Pow(16, 3) == 4096 && Pow(16, 6) == 0x100_0000;
    assert Pow(2, 4) == 16 && Pow(2, 8) == 256 && Pow(2, 12) == 4096 && Pow(2, 16) == 0x1_0000;
    assert Pow(2, 20) == 0x10_0000 && Pow(2, 24) == 0x100_0000 && Pow(2, 28) == 0x1000_0000;
  }

  /** The two fields of an expiry fit their widths and together spell the stored expiry. */
  lemma ExpiryFields(expires: int)
    ensures Seconds(expires) <= LAST_UNIX && Thousandths(expires) < 1000
    ensures Seconds(expires) * SECOND + Thousandths(expires) * MILLISECOND == StoredExpiry(expires)
  {
    var rest := expires % SECOND;
    var millis := rest / MILLISECOND;
    OneRemainder(expires, expires / SECOND * 1000 + millis, rest - millis * MILLISECOND);
  }

  lemma OneRemainder(x: int, q: int, r: int)
    requires x == q * MILLISECOND + r && 0 <= r < MILLISECOND
    ensures x % MILLISECOND == r
  {
  }

  lemma ExpiryParses(expires: int)
    ensures |Padded(Seconds(expires), 10, 10)| == 10
    ensures ParseInt(Padded(Seconds(expires), 10, 10)) == Some(Seconds(expires))
    ensures |Padded(Thousandths(expires), 10, 3)| == 3
    ensures ParseInt(Padded(Thousandths(expires), 10, 3)) == Some(Thousandths(expires))
  {
    ExpiryFields(expires);
    PowersUsed();
    ParsesPadded(Seconds(expires), 10);
    ParsesPadded(Thousandths(expires), 3);
  }

  lemma Slices(a: string, b: string, c: string)
    requires |a| == 10 && |b| == 3
    ensures (a + b + c)[..10] == a && (a + b + c)[10..13] == b && (a + b + c)[13..] == c
  {
  }

  lemma Regroup(a: string, b: string, length: string, key: string, value: string)
    ensures a + b + length + key + value == a + b + (length + key + value)
  {
  }

  /** The header as Decode cuts it, whatever follows. */
  lemma HeaderFields(key: string, value: string, expires: int)
    ensures |Encode(key, value, expires)| >= HEADER
    ensures ParseInt(Encode(key, value, expires)[..10]) == Some(Seconds(expires))
    ensures ParseInt(Encode(key, value, expires)[10..13]) == Some(Thousandths(expires))
    ensures Encode(key, value, expires)[13..] == Padded(|key|, 16, 8) + key + value
  {
    var a, b := Padded(Seconds(expires), 10, 10), Padded(Thousandths(expires), 10, 3);
    var c := Padded(|key|, 16, 8) + key + value;
    ExpiryParses(expires);
    PaddedReadsBack(|key|, 16, 8);
    Regroup(a, b, Padded(|key|, 16, 8), key, value);
    Slices(a, b, c);
  }

  /** What reading fields in their places comes to. */
  lemma DecodesTo(raw: string, unix: int, millis: int, key: string, value: string)
    requires |raw| == HEADER + |key| + |value|
    requires ParseInt(raw[..10]) == Some(unix) && ParseInt(raw[10..13]) == Some(millis)
    requires ParseUint(raw[13..HEADER], 16, 32) == Some(|key|)
    requires raw[HEADER..HEADER + |key|] == key && raw[HEADER + |key|..] == value
    ensures Decode(raw) == Some(Entry(key, value, unix * SECOND + millis * MILLISECOND))
  {
  }

  lemma LengthReadsBack(n: nat)
    requires n < 0x1_0000_0000
    ensures |Padded(n, 16, 8)| == 8 && ParseUint(Padded(n, 16, 8), 16, 32) == Some(n)
  {
    PowersUsed();
    PaddedReadsBack(n, 16, 8);
  }

  /** Decoding an encoded entry gives it back with the stored expiry. */
  lemma RoundTrip(key: string, value: string, expires: int)
    requires |key| < 0x1_0000_0000
    ensures Decode(Encode(key, value, expires)) == Some(Entry(key, value, StoredExpiry(expires)))
  {
    var raw := Encode(key, value, expires);
    HeaderFields(key, value, expires);
    LengthReadsBack(|key|);
    BodyFields(raw, Padded(|key|, 16, 8), key, value);
    DecodesTo(raw, Seconds(expires), Thousandths(expires), key, value);
    ExpiryFields(expires);
  }

  lemma BodyFields(raw: string, length: string, key: string, value: string)
    requires |raw| >= HEADER && |length| == 8 && raw[13..] == length + key + value
    ensures |raw| == HEADER + |key| + |value| && raw[13..HEADER] == length
    ensures raw[HEADER..HEADER + |key|] == key && raw[HEADER + |key|..] == value
  {
    var tail := raw[13..];
    assert raw[13..HEADER] == tail[..8];
    assert raw[HEADER..HEADER + |key|] == tail[8..8 + |key|] && raw[HEADER + |key|..] == tail[8 + |key|..];
  }

  /** Whatever is read back, the key it holds is shorter than 2^32. */
  lemma DecodedKeyIsShort(raw: string)
    requires Decode(raw).Some?
    ensures |Decode(raw).value.key| < 0x1_0000_0000
  {
    PowersUsed();
  }

  /** The eight digits of length are the whole condition. */
  lemma RoundTripExactly(key: string, value: string, expires: int)
    ensures Decode(Encode(key, value, expires)) == Some(Entry(key, value, StoredExpiry(expires)))
            <==> |key| < 0x1_0000_0000
  {
    var raw := Encode(key, value, expires);
    if |key| < 0x1_0000_0000 {
      RoundTrip(key, value, expires);
    } else if Decode(raw).Some? {
      DecodedKeyIsShort(raw);
    }
  }

  /** A stored expiry is never later than the one asked for and less than a millisecond early. */
  lemma StoredExpiryIsClose(expires: int)
    requires 0 <= expires < (LAST_UNIX + 1) * SECOND
    ensures StoredExpiry(expires) <= expires < StoredExpiry(expires) + MILLISECOND
    ensures StoredExpiry(StoredExpiry(expires)) == StoredExpiry(expires)
  {
    ExpiryFields(expires);
  }
}

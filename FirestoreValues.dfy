/**
 * Document field values as the backend sees them: nested dictionaries (insertion-ordered),
 * lists, datetimes and scalar leaves, and `serialize_firestore_data`, which replaces every
 * datetime by its ISO-8601 text and rebuilds dictionaries and lists around the results.
 */
module FirestoreValues {
  import opened Wrappers

  /** A datetime; `utcOffsetMinutes` is None for a naive one. */
  datatype DateTime = DateTime(year: nat, month: nat, day: nat, hour: nat, minute: nat, second: nat,
                               microsecond: nat, utcOffsetMinutes: Option<int>)

  datatype Value =
    | VDict(entries: seq<(string, Value)>)
    | VList(items: seq<Value>)
    | VDateTime(dt: DateTime)
    | VString(s: string)
    | VInt(i: int)
    | VBool(b: bool)
    | VNone

  // ----- ISO-8601 text -----

  function DigitChar(d: nat): (c: char)
    requires d < 10
    ensures '0' <= c <= '9'
  {
    ['0', '1', '2', '3', '4', '5', '6', '7', '8', '9'][d]
  }

  function DigitValue(c: char): nat
    requires '0' <= c <= '9'
  {
    c as int - '0' as int
  }

  function Pow10(w: nat): (p: nat)
    ensures p >= 1
  {
    if w == 0 then 1 else 10 * Pow10(w - 1)
  }

  /** The last `w` decimal digits of `n`, most significant first (Python's `%0wd` for `n < 10^w`). */
  function ZeroPad(n: nat, w: nat): (s: string)
    ensures |s| == w
    ensures forall i :: 0 <= i < |s| ==> '0' <= s[i] <= '9'
  {
    if w == 0 then "" else ZeroPad(n / 10, w - 1) + [DigitChar(n % 10)]
  }

  /** The number a string of decimal digits denotes. */
  function ParseDigits(s: string): nat
    requires forall i :: 0 <= i < |s| ==> '0' <= s[i] <= '9'
  {
    if s == [] then 0 else 10 * ParseDigits(s[..|s| - 1]) + DigitValue(s[|s| - 1])
  }

  lemma DigitRoundTrip(d: nat)
    requires d < 10
    ensures DigitValue(DigitChar(d)) == d
  {
  }

  /** Zero padding loses nothing when the number fits: reading the digits back gives `n`. */
  lemma {:induction false} ZeroPadRoundTrip(n: nat, w: nat)
    requires n < Pow10(w)
    ensures ParseDigits(ZeroPad(n, w)) == n
  {
    if w > 0 {
      ZeroPadRoundTrip(n / 10, w - 1);
      var s := ZeroPad(n, w);
      assert s[..|s| - 1] == ZeroPad(n / 10, w - 1);
      DigitRoundTrip(n % 10);
    }
  }

  /** The `+HH:MM` / `-HH:MM` suffix of an aware datetime. */
  function OffsetText(minutes: int): (s: string)
    ensures |s| == 6
  {
    var sign := if minutes < 0 then '-' else '+';
    var m: nat := if minutes < 0 then -minutes else minutes;
    [sign] + ZeroPad(m / 60, 2) + [':'] + ZeroPad(m % 60, 2)
  }

  /** `YYYY-MM-DD`. */
  function DateText(dt: DateTime): (s: string)
    ensures |s| == 10 && s[4] == '-' && s[7] == '-'
    ensures s[..4] == ZeroPad(dt.year, 4)
  {
    ZeroPad(dt.year, 4) + "-" + ZeroPad(dt.month, 2) + "-" + ZeroPad(dt.day, 2)
  }

  /** `HH:MM:SS`. */
  function TimeText(dt: DateTime): (s: string)
    ensures |s| == 8 && s[2] == ':' && s[5] == ':'
  {
    ZeroPad(dt.hour, 2) + ":" + ZeroPad(dt.minute, 2) + ":" + ZeroPad(dt.second, 2)
  }

  /** `datetime.isoformat()`: date and time, microseconds only when non-zero, the offset when aware. */
  function IsoFormat(dt: DateTime): (s: string)
    ensures |s| == 19 + (if dt.microsecond != 0 then 7 else 0) + (if dt.utcOffsetMinutes.Some? then 6 else 0)
    ensures s[4] == '-' && s[7] == '-' && s[10] == 'T' && s[13] == ':' && s[16] == ':'
    ensures s[..4] == ZeroPad(dt.year, 4)
  {
    var fraction := if dt.microsecond != 0 then "." + ZeroPad(dt.microsecond, 6) else "";
    var offset := if dt.utcOffsetMinutes.Some? then OffsetText(dt.utcOffsetMinutes.value) else "";
    DateText(dt) + "T" + TimeText(dt) + fraction + offset
  }

  /** The year can be read back from the first four characters. */
  lemma IsoFormatYear(dt: DateTime)
    requires dt.year < 10000
    ensures ParseDigits(IsoFormat(dt)[..4]) == dt.year
  {
    ZeroPadRoundTrip(dt.year, 4);
  }

  // ----- serialization -----

  /** `serialize_firestore_data`: dictionaries and lists are rebuilt around their serialized members. */
  function Serialize(v: Value): (r: Value)
    decreases v
    ensures v.VDict? ==>
              (r.VDict? && |r.entries| == |v.entries|
               && forall i :: 0 <= i < |v.entries| ==> r.entries[i].0 == v.entries[i].0)
    ensures v.VList? ==> r.VList? && |r.items| == |v.items|
    ensures v.VDateTime? ==> r == VString(IsoFormat(v.dt))
    ensures !v.VDict? && !v.VList? && !v.VDateTime? ==> r == v
  {
    match v
    case VDict(es) => VDict(seq(|es|, i requires 0 <= i < |es| => (es[i].0, Serialize(es[i].1))))
    case VList(xs) => VList(seq(|xs|, i requires 0 <= i < |xs| => Serialize(xs[i])))
    case VDateTime(dt) => VString(IsoFormat(dt))
    case _ => v
  }

  /** No datetime anywhere inside. */
  predicate NoDateTime(v: Value)
    decreases v
  {
    match v
    case VDict(es) => forall i :: 0 <= i < |es| ==> NoDateTime(es[i].1)
    case VList(xs) => forall i :: 0 <= i < |xs| ==> NoDateTime(xs[i])
    case VDateTime(_) => false
    case _ => true
  }

  /**
   * The result holds no datetime, and a value without datetimes is left exactly as it is;
   * together, serializing twice is serializing once.
   */
  lemma {:induction false} SerializeRemovesDateTimes(v: Value)
    decreases v
    ensures NoDateTime(Serialize(v))
    ensures NoDateTime(v) ==> Serialize(v) == v
  {
    match v
    case VDict(es) =>
      forall i | 0 <= i < |es| {
        SerializeRemovesDateTimes(es[i].1);
      }
      if NoDateTime(v) {
        assert Serialize(v).entries == es;
      }
    case VList(xs) =>
      forall i | 0 <= i < |xs| {
        SerializeRemovesDateTimes(xs[i]);
      }
      if NoDateTime(v) {
        assert Serialize(v).items == xs;
      }
    case _ =>
  }

  lemma SerializeIdempotent(v: Value)
    ensures Serialize(Serialize(v)) == Serialize(v)
  {
    SerializeRemovesDateTimes(v);
    SerializeRemovesDateTimes(Serialize(v));
  }
}

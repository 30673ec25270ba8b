/** `src/eaf2csv.rs`: annotation times in milliseconds rendered as a time of
    day `HH:MM:SS.fff`, as `time::Time::MIDNIGHT + ms.milliseconds()`
    followed by `as_hms_milli` and a zero-padded `format!`. */
module Clock {
  import opened Wrappers
  import opened Decimal

  /** Milliseconds in a day: adding a duration to a time of day wraps here. */
  const DAY_MS: int := 86_400_000

  /** The clock fields `as_hms_milli` returns. */
  datatype Hms = Hms(hour: nat, minute: nat, second: nat, milli: nat)
  {
    /** Fields of a time of day. */
    predicate Valid() {
      hour < 24 && minute < 60 && second < 60 && milli < 1000
    }

    /** Milliseconds since midnight the fields stand for. */
    function Millis(): nat {
      hour * 3_600_000 + minute * 60_000 + second * 1000 + milli
    }
  }

  /** `hms_milli`: the time of day `ms` milliseconds after midnight; negative
      and over-long values wrap around midnight. */
  function HmsMilli(ms: int): (r: Hms)
    ensures r.Valid()
    ensures r.Millis() == ms % DAY_MS
  {
    var t := ms % DAY_MS;
    var seconds := t / 1000;
    var minutes := seconds / 60;
    Hms(minutes / 60, minutes % 60, seconds % 60, t % 1000)
  }

  /** The decomposition is unique: valid fields come back from their own
      millisecond count. */
  lemma {:induction false} HmsMilliOfMillis(h: Hms)
    requires h.Valid()
    ensures HmsMilli(h.Millis()) == h
  {
    var t := h.Millis();
    var r := HmsMilli(t);
    assert t < DAY_MS;
    FieldsUnique(r, h);
  }

  /** Two valid clock readings with the same millisecond count agree. */
  lemma {:induction false} FieldsUnique(a: Hms, b: Hms)
    requires a.Valid() && b.Valid() && a.Millis() == b.Millis()
    ensures a == b
  {
    var ra := a.minute * 60_000 + a.second * 1000 + a.milli;
    var rb := b.minute * 60_000 + b.second * 1000 + b.milli;
    assert ra < 3_600_000 && rb < 3_600_000;
    assert a.hour == b.hour by {
      if a.hour < b.hour {
        assert false;
      } else if b.hour < a.hour {
        assert false;
      }
    }
    assert ra == rb;
    var sa := a.second * 1000 + a.milli;
    var sb := b.second * 1000 + b.milli;
    assert a.minute == b.minute by {
      if a.minute < b.minute {
        assert false;
      } else if b.minute < a.minute {
        assert false;
      }
    }
    assert sa == sb;
    assert a.second == b.second by {
      if a.second < b.second {
        assert false;
      } else if b.second < a.second {
        assert false;
      }
    }
  }

  /** A whole day later (or earlier) reads the same on the clock. */
  lemma {:induction false} HmsMilliPeriodic(ms: int, days: int)
    ensures HmsMilli(ms + days * DAY_MS) == HmsMilli(ms)
  {
    assert (ms + days * DAY_MS) % DAY_MS == ms % DAY_MS by {
      ModShift(ms, days);
    }
  }

  lemma {:induction false} ModShift(ms: int, days: int)
    ensures (ms + days * DAY_MS) % DAY_MS == ms % DAY_MS
  {
    var q := ms / DAY_MS;
    var r := ms % DAY_MS;
    assert ms + days * DAY_MS == (q + days) * DAY_MS + r;
  }

  /** `hms_milli_to_string`: `{:02}:{:02}:{:02}.{:03}`. */
  function HmsMilliToString(h: Hms): (r: string)
    ensures |r| >= 12
    ensures forall i :: 0 <= i < |r| ==> '0' <= r[i] <= '9' || r[i] == ':' || r[i] == '.'
  {
    PaddedNat(h.hour, 2) + ":" + PaddedNat(h.minute, 2) + ":" + PaddedNat(h.second, 2) + "." + PaddedNat(h.milli, 3)
  }

  /** Valid fields print as exactly twelve characters, with the separators
      in place and each field readable back from its digits. */
  lemma {:induction false} HmsMilliToStringLayout(h: Hms)
    requires h.Valid()
    ensures var r := HmsMilliToString(h);
      |r| == 12 && r[2] == ':' && r[5] == ':' && r[8] == '.'
      && AllDigits(r[..2]) && Value(r[..2]) == h.hour
      && AllDigits(r[3..5]) && Value(r[3..5]) == h.minute
      && AllDigits(r[6..8]) && Value(r[6..8]) == h.second
      && AllDigits(r[9..]) && Value(r[9..]) == h.milli
  {
    var hh, mm, ss, fff := PaddedNat(h.hour, 2), PaddedNat(h.minute, 2), PaddedNat(h.second, 2), PaddedNat(h.milli, 3);
    PaddedNatWidth(h.hour, 2);
    PaddedNatWidth(h.minute, 2);
    PaddedNatWidth(h.second, 2);
    PaddedNatWidth(h.milli, 3);
    var r := HmsMilliToString(h);
    assert r == hh + ":" + mm + ":" + ss + "." + fff;
    assert r[..2] == hh;
    assert r[3..5] == mm;
    assert r[6..8] == ss;
    assert r[9..] == fff;
  }

  /** `ms2string`. */
  function Ms2String(ms: int): (r: string)
    ensures |r| == 12 && r[2] == ':' && r[5] == ':' && r[8] == '.'
  {
    HmsMilliToStringLayout(HmsMilli(ms));
    HmsMilliToString(HmsMilli(ms))
  }

  /** The printed time reads back as the time of day of `ms`: twelve
      characters whose fields, weighted by their units, add up to `ms`
      modulo a day. */
  lemma {:induction false} Ms2StringReadsBack(ms: int)
    ensures var r := Ms2String(ms);
      |r| == 12 && r[2] == ':' && r[5] == ':' && r[8] == '.'
      && AllDigits(r[..2]) && AllDigits(r[3..5]) && AllDigits(r[6..8]) && AllDigits(r[9..])
      && Value(r[..2]) < 24 && Value(r[3..5]) < 60 && Value(r[6..8]) < 60 && Value(r[9..]) < 1000
      && Value(r[..2]) * 3_600_000 + Value(r[3..5]) * 60_000 + Value(r[6..8]) * 1000 + Value(r[9..]) == ms % DAY_MS
  {
    HmsMilliToStringLayout(HmsMilli(ms));
  }

  /** The two time columns of an annotation row: the clock reading and the
      raw milliseconds, a missing time value counting as zero. */
  function TimeColumns(ts: Option<int>): (r: (string, string))
    ensures |r.0| == 12 && r.1 != ""
    ensures ts.GetOr(0) >= 0 ==> AllDigits(r.1) && Value(r.1) == ts.GetOr(0)
    ensures ts.GetOr(0) < 0 ==> r.1[0] == '-' && AllDigits(r.1[1..]) && Value(r.1[1..]) == -ts.GetOr(0)
  {
    var ms := ts.GetOr(0);
    NatToStringRoundTrip(if ms < 0 then -ms else ms);
    assert ms < 0 ==> IntToString(ms)[1..] == NatToString(-ms);
    (Ms2String(ms), IntToString(ms))
  }

  /** Zero milliseconds is midnight. */
  lemma {:induction false} MidnightAt(ms: int)
    requires ms == 0
    ensures Ms2String(ms) == "00:00:00.000"
  {
    WholeDaysAreMidnight(ms);
    MidnightText();
  }

  /** A whole number of days reads as midnight. */
  lemma {:induction false} WholeDaysAreMidnight(ms: int)
    requires ms % DAY_MS == 0
    ensures HmsMilli(ms) == Hms(0, 0, 0, 0)
  {
    var h := HmsMilli(ms);
    assert h.Millis() == 0;
  }

  lemma MidnightText()
    ensures HmsMilliToString(Hms(0, 0, 0, 0)) == "00:00:00.000"
  {
  }

  /** A missing time value prints as midnight. */
  lemma {:induction false} MissingTimeIsMidnight(ts: Option<int>)
    requires ts.None?
    ensures TimeColumns(ts) == ("00:00:00.000", "0")
  {
    MidnightAt(ts.GetOr(0));
  }
}

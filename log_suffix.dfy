/** The suffix of the persistent log files:
    `"." + iso.split('.')[0].replace('T', '_').replaceAll(':', '-') + ".log"`,
    where `iso` is `Date.toISOString()` at startup. */
module LogSuffix {

  /** `s.split(c)[0]`: the part of `s` before its first `c`. */
  function BeforeFirst(s: string, c: char): (r: string)
    ensures |r| <= |s| && r == s[..|r|]
    ensures c !in r
    ensures |r| < |s| ==> s[|r|] == c
  {
    if s == [] || s[0] == c then [] else [s[0]] + BeforeFirst(s[1..], c)
  }

  /** `s.replace(a, b)` with a one-character pattern: only the first `a` is replaced. */
  function ReplaceFirst(s: string, a: char, b: char): (r: string)
    ensures |r| == |s|
    ensures forall i :: 0 <= i < |s| ==> r[i] == if s[i] == a && a !in s[..i] then b else s[i]
  {
    if s == [] then []
    else if s[0] == a then [b] + s[1..]
    else [s[0]] + ReplaceFirst(s[1..], a, b)
  }

  /** `s.replaceAll(a, b)` with a one-character pattern. */
  function ReplaceAll(s: string, a: char, b: char): (r: string)
    ensures |r| == |s|
    ensures forall i :: 0 <= i < |s| ==> r[i] == if s[i] == a then b else s[i]
  {
    if s == [] then [] else [if s[0] == a then b else s[0]] + ReplaceAll(s[1..], a, b)
  }

  /** Whatever the clock string, the suffix starts with `.`, ends with
      `.log` and contains no colon. */
  function Suffix(iso: string): (r: string)
    ensures |r| >= 5 && r[0] == '.' && r[|r| - 4..] == ".log"
    ensures ':' !in r
  {
    var stamp := ReplaceAll(ReplaceFirst(BeforeFirst(iso, '.'), 'T', '_'), ':', '-');
    assert ':' !in stamp;
    "." + stamp + ".log"
  }

  predicate IsDigit(ch: char) {
    '0' <= ch <= '9'
  }

  /** The shape of `toISOString()` for years 0 to 9999: `YYYY-MM-DDTHH:mm:ss.sssZ`. */
  predicate IsIsoTimestamp(s: string) {
    |s| == 24
    && (forall i :: 0 <= i < 24 && i !in {4, 7, 10, 13, 16, 19, 23} ==> IsDigit(s[i]))
    && s[4] == '-' && s[7] == '-' && s[10] == 'T' && s[13] == ':' && s[16] == ':'
    && s[19] == '.' && s[23] == 'Z'
  }

  /** The part before the first `.` is the date and time of day. */
  lemma IsoBeforeDot(iso: string)
    requires IsIsoTimestamp(iso)
    ensures BeforeFirst(iso, '.') == iso[..19]
  {
  }

  /** The only `T` of the date and time of day is the separator at index 10. */
  lemma IsoReplaceT(iso: string)
    requires IsIsoTimestamp(iso)
    ensures ReplaceFirst(iso[..19], 'T', '_') == iso[..10] + "_" + iso[11..19]
  {
    var p := iso[..19];
    var q := ReplaceFirst(p, 'T', '_');
    var want := iso[..10] + "_" + iso[11..19];
    forall i | 0 <= i < 19 ensures q[i] == want[i] {
      if i <= 10 {
        forall j | 0 <= j < i ensures p[j] != 'T' {
          assert IsDigit(iso[j]) || iso[j] == '-';
        }
        assert 'T' !in p[..i];
      } else {
        assert p[..i][10] == 'T';
      }
    }
  }

  /** The three separators of the time of day: `T` becomes `_` and the colons become `-`. */
  lemma IsoReplaceColons(iso: string)
    requires IsIsoTimestamp(iso)
    ensures ReplaceAll(iso[..10] + "_" + iso[11..19], ':', '-') == IsoStamp(iso)
  {
    var q := iso[..10] + "_" + iso[11..19];
    var r := ReplaceAll(q, ':', '-');
    var want := IsoStamp(iso);
    forall i | 0 <= i < 19 ensures r[i] == want[i] {
      if i != 10 && i != 13 && i != 16 {
        assert IsDigit(iso[i]) || iso[i] == '-';
      }
    }
  }

  /** `<date>_<hh>-<mm>-<ss>` of an ISO timestamp. */
  function IsoStamp(iso: string): string
    requires |iso| >= 19
  {
    iso[..10] + "_" + iso[11..13] + "-" + iso[14..16] + "-" + iso[17..19]
  }

  /** For an ISO timestamp the suffix is `.<date>_<hh>-<mm>-<ss>.log`: the
      fractional seconds and the zone letter are dropped, and it contains
      neither a colon nor a `T`. */
  lemma IsoSuffix(iso: string)
    requires IsIsoTimestamp(iso)
    ensures Suffix(iso) == "." + IsoStamp(iso) + ".log"
    ensures ':' !in Suffix(iso) && 'T' !in Suffix(iso)
  {
    IsoBeforeDot(iso);
    IsoReplaceT(iso);
    IsoReplaceColons(iso);
    var want := IsoStamp(iso);
    forall i | 0 <= i < |want| ensures want[i] != ':' && want[i] != 'T' {
      if i != 10 && i != 13 && i != 16 {
        assert IsDigit(iso[i]) || iso[i] == '-';
      }
    }
  }
}

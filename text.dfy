/** Values shared by the models: optional values (the source's null), results (its exceptions),
    and the few .NET string operations the core relies on, with their ordinal semantics. */
module Text {

  /** A reference that may be null. */
  datatype Option<+T> = None | Some(value: T)

  /** A value or the exception that replaced it. */
  datatype Result<+R, +E> = Success(value: R) | Failure(error: E)

  /** char.IsWhiteSpace: the Unicode space, line and paragraph separators, the control characters
      U+0009 to U+000D, and U+0085. */
  predicate IsWhiteSpace(c: char)
  {
    || '\U{0009}' <= c <= '\U{000D}'
    || c == '\U{0020}' || c == '\U{0085}' || c == '\U{00A0}' || c == '\U{1680}'
    || '\U{2000}' <= c <= '\U{200A}'
    || c == '\U{2028}' || c == '\U{2029}' || c == '\U{202F}' || c == '\U{205F}' || c == '\U{3000}'
  }

  /** Scans the characters of s, as string.IsNullOrWhiteSpace does once it knows s is not null. */
  function AllWhiteSpace(s: string): (r: bool)
    ensures r <==> forall i :: 0 <= i < |s| ==> IsWhiteSpace(s[i])
  {
    if |s| == 0 then true
    else IsWhiteSpace(s[0]) && AllWhiteSpace(s[1..])
  }

  /** The IsNullOrWhiteSpace extension: null, empty, or made only of white space. */
  function IsNullOrWhiteSpace(s: Option<string>): (r: bool)
    ensures r <==> (s.None? || forall i :: 0 <= i < |s.value| ==> IsWhiteSpace(s.value[i]))
  {
    match s
    case None => true
    case Some(v) => AllWhiteSpace(v)
  }

  /** string.StartsWith, compared ordinally. */
  predicate StartsWith(s: string, prefix: string)
  {
    |prefix| <= |s| && s[..|prefix|] == prefix
  }

  /** string.EndsWith, compared ordinally. */
  predicate EndsWith(s: string, suffix: string)
  {
    |suffix| <= |s| && s[|s| - |suffix|..] == suffix
  }

  /** No character a of s is immediately followed by the character b. */
  ghost predicate NoPair(s: string, a: char, b: char)
  {
    forall j :: 0 <= j < |s| - 1 ==> !(s[j] == a && s[j + 1] == b)
  }

  /** string.Replace(oldValue, newValue): an ordinal scan from the left that replaces every
      occurrence of oldValue, resuming after each replaced occurrence. Replacing a value by itself
      changes nothing, and replacing it by a value of the same length keeps the length. */
  function ReplaceOrdinal(s: string, oldValue: string, newValue: string): (r: string)
    requires |oldValue| > 0
    ensures newValue == oldValue ==> r == s
    ensures |newValue| == |oldValue| ==> |r| == |s|
    decreases |s|
  {
    if |s| < |oldValue| then s
    else if s[..|oldValue|] == oldValue then
      assert s == s[..|oldValue|] + s[|oldValue|..];
      newValue + ReplaceOrdinal(s[|oldValue|..], oldValue, newValue)
    else
      assert s == [s[0]] + s[1..];
      [s[0]] + ReplaceOrdinal(s[1..], oldValue, newValue)
  }

  /** oldValue occurs nowhere in s. */
  ghost predicate NoOccurrence(s: string, oldValue: string)
  {
    forall j :: 0 <= j <= |s| - |oldValue| ==> s[j..][..|oldValue|] != oldValue
  }

  /** A string in which oldValue occurs nowhere comes back from Replace unchanged. */
  lemma {:induction false} ReplaceOrdinalWithoutOccurrence(s: string, oldValue: string, newValue: string)
    requires |oldValue| > 0 && NoOccurrence(s, oldValue)
    ensures ReplaceOrdinal(s, oldValue, newValue) == s
    decreases |s|
  {
    if |s| >= |oldValue| {
      assert s[..|oldValue|] != oldValue by {
        assert s[0..] == s;
      }
      assert NoOccurrence(s[1..], oldValue) by {
        forall j | 0 <= j <= |s[1..]| - |oldValue| ensures s[1..][j..][..|oldValue|] != oldValue {
          assert s[1..][j..] == s[j + 1..];
        }
      }
      ReplaceOrdinalWithoutOccurrence(s[1..], oldValue, newValue);
      assert s == [s[0]] + s[1..];
    }
  }

  /** When the first two characters of oldValue never stand side by side in s, oldValue occurs
      nowhere in s. */
  lemma NoPairNoOccurrence(s: string, oldValue: string)
    requires |oldValue| >= 2 && NoPair(s, oldValue[0], oldValue[1])
    ensures NoOccurrence(s, oldValue)
  {
    forall j | 0 <= j <= |s| - |oldValue| ensures s[j..][..|oldValue|] != oldValue {
      assert s[j..][..|oldValue|][0] == s[j] && s[j..][..|oldValue|][1] == s[j + 1];
    }
  }

  /** When oldValue's first character occurs nowhere else in it (so two occurrences never overlap),
      an occurrence that ends s is replaced, and the result ends with newValue. */
  lemma {:induction false} ReplaceOrdinalReplacesTrailingOccurrence(s: string, oldValue: string, newValue: string)
    requires |oldValue| > 0
    requires forall j :: 0 < j < |oldValue| ==> oldValue[j] != oldValue[0]
    requires EndsWith(s, oldValue)
    ensures EndsWith(ReplaceOrdinal(s, oldValue, newValue), newValue)
    decreases |s|
  {
    var n := |oldValue|;
    if s[..n] == oldValue {
      if |s| == n {
        assert s[n..] == [];
        assert ReplaceOrdinal(s, oldValue, newValue) == newValue + [];
      } else {
        var start := |s| - n;
        // an occurrence at start < n would overlap the leading one at its first character
        assert s[start] == oldValue[0] by { assert s[start..][0] == s[start]; }
        assert forall j :: 0 < j < n ==> s[j] != oldValue[0] by {
          forall j | 0 < j < n ensures s[j] != oldValue[0] { assert s[..n][j] == s[j]; }
        }
        assert EndsWith(s[n..], oldValue) by {
          assert s[n..][|s[n..]| - n..] == s[start..];
        }
        ReplaceOrdinalReplacesTrailingOccurrence(s[n..], oldValue, newValue);
      }
    } else {
      assert EndsWith(s[1..], oldValue) by {
        assert s[1..][|s[1..]| - n..] == s[|s| - n..];
      }
      ReplaceOrdinalReplacesTrailingOccurrence(s[1..], oldValue, newValue);
    }
  }
}

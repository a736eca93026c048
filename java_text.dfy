/**
 * The few java.lang.String operations the entity definer relies on:
 * toUpperCase (approximated on ASCII letters), endsWith, compareTo and
 * replace(char, char).
 */
module JavaText {

  /** Character.toUpperCase restricted to the ASCII letters. */
  function UpperChar(ch: char): char {
    if 'a' <= ch <= 'z' then (ch as int - 32) as char else ch
  }

  /** String.toUpperCase: the ASCII approximation keeps the length. */
  function ToUpperCase(s: string): (u: string)
    ensures |u| == |s|
  {
    seq(|s|, i requires 0 <= i < |s| => UpperChar(s[i]))
  }

  predicate EndsWith(s: string, suffix: string) {
    |suffix| <= |s| && s[|s| - |suffix|..] == suffix
  }

  /** Lexicographic order on characters (code points), a proper prefix first; models s.compareTo(t) < 0. */
  predicate Less(s: string, t: string)
    decreases |s|
  {
    if s == [] then t != []
    else if t == [] then false
    else if s[0] != t[0] then s[0] < t[0]
    else Less(s[1..], t[1..])
  }

  lemma {:induction false} LessIrreflexive(s: string)
    ensures !Less(s, s)
    decreases |s|
  {
    if s != [] {
      LessIrreflexive(s[1..]);
    }
  }

  lemma {:induction false} LessTotal(s: string, t: string)
    ensures s == t || Less(s, t) || Less(t, s)
    decreases |s|
  {
    if s != [] && t != [] && s[0] == t[0] {
      LessTotal(s[1..], t[1..]);
      if s[1..] == t[1..] {
        assert s == [s[0]] + s[1..] && t == [t[0]] + t[1..];
      }
    }
  }

  lemma {:induction false} LessTransitive(s: string, t: string, u: string)
    requires Less(s, t) && Less(t, u)
    ensures Less(s, u)
    decreases |s|
  {
    if s != [] && s[0] == t[0] && t[0] == u[0] {
      LessTransitive(s[1..], t[1..], u[1..]);
    }
  }

  /** String.replace(from, to) on single characters. */
  function ReplaceChar(s: string, from: char, to: char): (r: string)
    ensures |r| == |s|
  {
    seq(|s|, i requires 0 <= i < |s| => if s[i] == from then to else s[i])
  }

  /** The number of occurrences of ch in s. */
  function Occurrences(s: string, ch: char): nat {
    if s == [] then 0 else Occurrences(s[..|s| - 1], ch) + (if s[|s| - 1] == ch then 1 else 0)
  }

  lemma {:induction false} OccurrencesAppend(s: string, t: string, ch: char)
    ensures Occurrences(s + t, ch) == Occurrences(s, ch) + Occurrences(t, ch)
    decreases |t|
  {
    if t != [] {
      assert (s + t)[..|s + t| - 1] == s + t[..|t| - 1];
      OccurrencesAppend(s, t[..|t| - 1], ch);
    } else {
      assert s + t == s;
    }
  }

  /** A string without ch holds no occurrence of it. */
  lemma {:induction false} OccurrencesAbsent(s: string, ch: char)
    requires ch !in s
    ensures Occurrences(s, ch) == 0
  {
    if s != [] {
      assert forall i :: 0 <= i < |s| - 1 ==> s[..|s| - 1][i] == s[i];
      OccurrencesAbsent(s[..|s| - 1], ch);
    }
  }

  /** The number of '.'-separated segments of a dotted attribute path. */
  function Segments(path: string): nat {
    Occurrences(path, '.') + 1
  }
}

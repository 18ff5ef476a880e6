/** Splitting and joining, and the case of ASCII letters. */
module Texts {

  /** strings.Split with a one-character separator. */
  function SplitAt(s: string, sep: char): (parts: seq<string>)
    ensures parts != []
  {
    if s == "" then [""]
    else
      var rest := SplitAt(s[1..], sep);
      if s[0] == sep then [""] + rest else [[s[0]] + rest[0]] + rest[1..]
  }

  /** strings.Join. */
  function JoinWith(parts: seq<string>, sep: char): string {
    if parts == [] then "" else if |parts| == 1 then parts[0] else parts[0] + [sep] + JoinWith(parts[1..], sep)
  }

  ghost predicate AllWithout(parts: seq<string>, sep: char) {
    forall i :: 0 <= i < |parts| ==> sep !in parts[i]
  }

  lemma {:induction false} SplitWithout(s: string, sep: char)
    ensures AllWithout(SplitAt(s, sep), sep)
  {
    if s != "" {
      SplitWithout(s[1..], sep);
    }
  }

  /** Splitting a text in front of a separator. */
  lemma {:induction false} SplitFirst(s: string, t: string, sep: char)
    requires sep !in s
    ensures SplitAt(s, sep) == [s]
    ensures SplitAt(s + [sep] + t, sep) == [s] + SplitAt(t, sep)
  {
    if s == "" {
      assert s + [sep] + t == [sep] + t && ([sep] + t)[1..] == t;
    } else {
      var u := s + [sep] + t;
      assert u[1..] == s[1..] + [sep] + t;
      SplitFirst(s[1..], t, sep);
      assert [s[0]] + s[1..] == s;
    }
  }

  lemma {:induction false} SplitJoin(parts: seq<string>, sep: char)
    requires parts != [] && AllWithout(parts, sep)
    ensures SplitAt(JoinWith(parts, sep), sep) == parts
  {
    if |parts| == 1 {
      SplitFirst(parts[0], "", sep);
    } else {
      SplitJoin(parts[1..], sep);
      SplitFirst(parts[0], JoinWith(parts[1..], sep), sep);
    }
  }

  // ---------- case ----------

  function UpperChar(c: char): char {
    if 'a' <= c <= 'z' then c - 'a' + 'A' else c
  }

  /** strings.ToUpper. */
  function Upper(s: string): string {
    if s == "" then "" else [UpperChar(s[0])] + Upper(s[1..])
  }

  function Lower(c: char): char {
    if 'A' <= c <= 'Z' then c - 'A' + 'a' else c
  }

  /** strings.EqualFold: the same but for the case of letters. */
  predicate EqualFold(s: string, t: string) {
    |s| == |t| && forall i :: 0 <= i < |s| ==> Lower(s[i]) == Lower(t[i])
  }

  lemma {:induction false} UpperAt(s: string, i: nat)
    ensures |Upper(s)| == |s| && (i < |s| ==> Upper(s)[i] == UpperChar(s[i]))
  {
    if s != "" {
      UpperAt(s[1..], if i > 0 then i - 1 else 0);
    }
  }

  /** Upper and EqualFold agree. */
  lemma {:induction false} UpperIff(s: string, t: string)
    ensures Upper(s) == Upper(t) <==> EqualFold(s, t)
  {
    if s != "" && t != "" {
      UpperIff(s[1..], t[1..]);
      assert UpperChar(s[0]) == UpperChar(t[0]) <==> Lower(s[0]) == Lower(t[0]);
      assert Upper(s)[0] == UpperChar(s[0]) && Upper(t)[0] == UpperChar(t[0]);
      assert Upper(s)[1..] == Upper(s[1..]) && Upper(t)[1..] == Upper(t[1..]);
      if EqualFold(s, t) {
        assert Lower(s[0]) == Lower(t[0]);
        assert EqualFold(s[1..], t[1..]);
      }
    }
  }
}

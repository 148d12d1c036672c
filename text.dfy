/** The .NET string operations the resource-path logic relies on: `IndexOf(char)`,
    `Split(char)` and an ordinal, case-insensitive `StartsWith`. */
module Text {

  /** `s.IndexOf(c)`: the position of the first `c`, or -1 when there is none. */
  function IndexOf(s: string, c: char): (i: int)
    ensures -1 <= i < |s|
    ensures i == -1 <==> c !in s
    ensures 0 <= i ==> s[i] == c && c !in s[..i]
  {
    if s == [] then -1
    else if s[0] == c then 0
    else
      var j := IndexOf(s[1..], c);
      if j < 0 then -1 else j + 1
  }

  /** The first occurrence is unique: any position holding `c` with no `c` before it is `IndexOf`. */
  lemma IndexOfIsFirst(s: string, c: char, k: nat)
    requires k < |s| && s[k] == c && c !in s[..k]
    ensures IndexOf(s, c) == k
  {
  }

  /** How many times `c` occurs in `s`. */
  function Occurrences(s: string, c: char): nat
  {
    if s == [] then 0 else (if s[0] == c then 1 else 0) + Occurrences(s[1..], c)
  }

  /** `s.Split(sep)` with no options: the pieces between separators, empty ones kept,
      so there is always one more piece than there are separators. */
  function Split(s: string, sep: char): (parts: seq<string>)
    ensures |parts| == Occurrences(s, sep) + 1
    ensures forall k :: 0 <= k < |parts| ==> sep !in parts[k]
  {
    if s == [] then [[]]
    else
      var rest := Split(s[1..], sep);
      if s[0] == sep then [[]] + rest
      else [[s[0]] + rest[0]] + rest[1..]
  }

  /** `string.Join(sep, parts)`, the inverse of `Split`. */
  function Join(parts: seq<string>, sep: char): string
  {
    if |parts| == 0 then []
    else if |parts| == 1 then parts[0]
    else parts[0] + [sep] + Join(parts[1..], sep)
  }

  /** Splitting loses nothing: joining the pieces with the separator gives the input back. */
  lemma {:induction false} JoinSplit(s: string, sep: char)
    ensures Join(Split(s, sep), sep) == s
  {
    if s != [] {
      var rest := Split(s[1..], sep);
      JoinSplit(s[1..], sep);
      if s[0] == sep {
        assert Split(s, sep) == [[]] + rest;
      } else {
        var parts := Split(s, sep);
        assert parts == [[s[0]] + rest[0]] + rest[1..];
        if |rest| == 1 {
          assert Join(parts, sep) == [s[0]] + rest[0];
        } else {
          assert parts[1..] == rest[1..];
          assert Join(parts, sep) == [s[0]] + (rest[0] + [sep] + Join(rest[1..], sep));
        }
      }
    }
  }

  /** The first piece is the text before the first separator; the remaining pieces are the
      split of the text after it. */
  lemma {:induction false} SplitFirst(s: string, sep: char)
    ensures IndexOf(s, sep) < 0 ==> Split(s, sep) == [s]
    ensures 0 <= IndexOf(s, sep) ==>
      Split(s, sep) == [s[..IndexOf(s, sep)]] + Split(s[IndexOf(s, sep) + 1..], sep)
  {
    if s != [] && s[0] != sep {
      SplitFirst(s[1..], sep);
      var j := IndexOf(s[1..], sep);
      if 0 <= j {
        assert s[1..][j + 1..] == s[j + 2..];
        assert [s[0]] + s[1..][..j] == s[..j + 1];
      } else {
        assert [s[0]] + s[1..] == s;
      }
    }
  }

  /** A piece free of separators splits to itself. */
  lemma SplitWithoutSeparator(s: string, sep: char)
    requires sep !in s
    ensures Split(s, sep) == [s]
  {
    SplitFirst(s, sep);
  }

  /** `char.ToUpperInvariant` on the letters whose upper case is ASCII: the ASCII small letters,
      the long s (U+017F, upper case 'S') and the dotless i (U+0131, upper case 'I'). Every other
      character is kept as it is. */
  function ToUpperOrdinal(c: char): char
  {
    if 'a' <= c <= 'z' then (c as int - 32) as char
    else if c == '\U{17F}' then 'S'
    else if c == '\U{131}' then 'I'
    else c
  }

  /** `s.StartsWith(prefix, StringComparison.OrdinalIgnoreCase)`: both sides upper-cased character by character. */
  predicate StartsWithIgnoreCase(s: string, prefix: string)
  {
    |prefix| <= |s| && forall i :: 0 <= i < |prefix| ==> ToUpperOrdinal(s[i]) == ToUpperOrdinal(prefix[i])
  }

  /** The upper-cased copy of `s`. */
  function UpperOrdinal(s: string): (u: string)
    ensures |u| == |s| && forall i :: 0 <= i < |s| ==> u[i] == ToUpperOrdinal(s[i])
  {
    if s == [] then [] else [ToUpperOrdinal(s[0])] + UpperOrdinal(s[1..])
  }

  /** The comparison ignores case: upper-casing the text, or the prefix, changes nothing;
      and an exact prefix always matches. */
  lemma IgnoreCaseIsCaseBlind(s: string, prefix: string)
    ensures StartsWithIgnoreCase(UpperOrdinal(s), prefix) == StartsWithIgnoreCase(s, prefix)
    ensures StartsWithIgnoreCase(s, UpperOrdinal(prefix)) == StartsWithIgnoreCase(s, prefix)
    ensures prefix <= s ==> StartsWithIgnoreCase(s, prefix)
  {
    forall c: char {
      UpperIsIdempotent(c);
    }
  }

  /** Upper-casing an upper-cased character changes nothing. */
  lemma UpperIsIdempotent(c: char)
    ensures ToUpperOrdinal(ToUpperOrdinal(c)) == ToUpperOrdinal(c)
  {
  }
}

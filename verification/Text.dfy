/** The string operations the service applies to names, labels and course keys:
    Python's `split`, `strip`, `join`, `casefold` and `upper` (the two case maps on ASCII letters). */
module Text {

  datatype Option<+T> = None | Some(value: T)

  /** Python's notion of white space (`str.isspace`). */
  predicate IsSpace(c: char) {
    || '\U{0009}' <= c <= '\U{000d}'
    || '\U{001c}' <= c <= '\U{0020}'
    || c == '\U{0085}' || c == '\U{00a0}' || c == '\U{1680}'
    || '\U{2000}' <= c <= '\U{200a}'
    || c == '\U{2028}' || c == '\U{2029}' || c == '\U{202f}' || c == '\U{205f}' || c == '\U{3000}'
  }

  predicate IsWord(s: string) {
    s != "" && forall i | 0 <= i < |s| :: !IsSpace(s[i])
  }

  /** Length of the leading run of non-space characters. */
  function WordLength(s: string): (n: nat)
    ensures n <= |s|
    ensures forall i | 0 <= i < n :: !IsSpace(s[i])
    ensures n < |s| ==> IsSpace(s[n])
  {
    if s == "" || IsSpace(s[0]) then 0 else 1 + WordLength(s[1..])
  }

  /** `s.split()` */
  function Words(s: string): (ws: seq<string>)
    ensures forall i | 0 <= i < |ws| :: IsWord(ws[i])
    decreases |s|
  {
    if s == "" then []
    else if IsSpace(s[0]) then Words(s[1..])
    else var n := WordLength(s); [s[..n]] + Words(s[n..])
  }

  /** `" ".join(ws)` */
  function Join(ws: seq<string>): string {
    if |ws| == 0 then "" else if |ws| == 1 then ws[0] else ws[0] + " " + Join(ws[1..])
  }

  /** White space collapsed to single blanks, none at either end. */
  function Clean(s: string): string {
    Join(Words(s))
  }

  function TrimLeft(s: string): string {
    if s != "" && IsSpace(s[0]) then TrimLeft(s[1..]) else s
  }

  function TrimRight(s: string): string {
    if s != "" && IsSpace(s[|s| - 1]) then TrimRight(s[..|s| - 1]) else s
  }

  /** `s.strip()` */
  function Strip(s: string): string {
    TrimRight(TrimLeft(s))
  }

  function FoldChar(c: char): char {
    if 'A' <= c <= 'Z' then (c as int + 32) as char else c
  }

  function UpperChar(c: char): char {
    if 'a' <= c <= 'z' then (c as int - 32) as char else c
  }

  /** `s.casefold()` */
  function Fold(s: string): string {
    seq(|s|, i requires 0 <= i < |s| => FoldChar(s[i]))
  }

  /** `s.upper()` */
  function Upper(s: string): string {
    seq(|s|, i requires 0 <= i < |s| => UpperChar(s[i]))
  }

  /** The stored form of a subject or a course number. */
  function NormalizeKey(s: string): string {
    Upper(Strip(s))
  }

  /** The word length is the only position that ends a run of non-space characters. */
  lemma WordLengthUnique(s: string, n: nat)
    requires n <= |s|
    requires forall i | 0 <= i < n :: !IsSpace(s[i])
    requires n < |s| ==> IsSpace(s[n])
    ensures WordLength(s) == n
  {
  }

  lemma WordLengthOfWord(w: string, rest: string)
    requires IsWord(w)
    requires rest == "" || IsSpace(rest[0])
    ensures WordLength(w + rest) == |w|
  {
    WordLengthUnique(w + rest, |w|);
  }

  lemma {:induction false} WordsOfJoin(ws: seq<string>)
    requires forall i | 0 <= i < |ws| :: IsWord(ws[i])
    ensures Words(Join(ws)) == ws
  {
    if |ws| == 1 {
      WordLengthOfWord(ws[0], "");
      assert ws[0] + "" == ws[0];
      assert Words(ws[0]) == [ws[0]];
    } else if |ws| > 1 {
      var rest := " " + Join(ws[1..]);
      WordLengthOfWord(ws[0], rest);
      assert Join(ws) == ws[0] + rest;
      assert (ws[0] + rest)[..|ws[0]|] == ws[0];
      assert (ws[0] + rest)[|ws[0]|..] == rest;
      assert rest[1..] == Join(ws[1..]);
      WordsOfJoin(ws[1..]);
    }
  }

  /** Cleaning twice is cleaning once, so a name stored clean compares equal to itself. */
  lemma CleanIdempotent(s: string)
    ensures Clean(Clean(s)) == Clean(s)
    ensures Clean(s) == "" <==> Words(s) == []
  {
    WordsOfJoin(Words(s));
  }

  lemma TrimRightKeepsWords(s: string)
    ensures Words(TrimRight(s)) == Words(s)
    decreases |s|
  {
    if s != "" && IsSpace(s[|s| - 1]) {
      TrimRightKeepsWords(s[..|s| - 1]);
      DropLastSpace(s);
    }
  }

  lemma {:induction false} DropLastSpace(s: string)
    requires s != "" && IsSpace(s[|s| - 1])
    ensures Words(s[..|s| - 1]) == Words(s)
    decreases |s|
  {
    hide IsSpace, WordLength;
    if |s| == 1 {
    } else if IsSpace(s[0]) {
      DropLastSpace(s[1..]);
      assert s[1..][..|s| - 2] == s[..|s| - 1][1..];
    } else {
      var n := FirstWordBeforeLastSpace(s);
      DropLastSpace(s[n..]);
      assert s[n..][..|s| - n - 1] == s[..|s| - 1][n..];
    }
  }

  lemma FirstWordBeforeLastSpace(s: string) returns (n: nat)
    requires |s| > 1 && !IsSpace(s[0]) && IsSpace(s[|s| - 1])
    ensures 0 < n < |s|
    ensures Words(s) == [s[..n]] + Words(s[n..])
    ensures Words(s[..|s| - 1]) == [s[..n]] + Words(s[..|s| - 1][n..])
  {
    n := WordLength(s);
    WordLengthUnique(s[..|s| - 1], n);
    assert s[..|s| - 1][..n] == s[..n];
  }

  /** `" ".join(s.strip().split())` and `" ".join(s.split())` are the same text. */
  lemma StripKeepsWords(s: string)
    ensures Words(Strip(s)) == Words(s)
    ensures Clean(Strip(s)) == Clean(s)
  {
    TrimLeftKeepsWords(s);
    TrimRightKeepsWords(TrimLeft(s));
  }

  /** Only white space goes, all of it at either end and none in between. */
  lemma StripExactly(s: string) returns (before: string, after: string)
    ensures s == before + Strip(s) + after
    ensures forall i | 0 <= i < |before| :: IsSpace(before[i])
    ensures forall i | 0 <= i < |after| :: IsSpace(after[i])
    ensures Strip(s) != "" ==> !IsSpace(Strip(s)[0]) && !IsSpace(Strip(s)[|Strip(s)| - 1])
  {
    before := LeftTrimmed(s);
    after := RightTrimmed(TrimLeft(s));
    assert Strip(s) != "" ==> Strip(s)[0] == TrimLeft(s)[0];
  }

  lemma LeftTrimmed(s: string) returns (before: string)
    ensures s == before + TrimLeft(s) && forall i | 0 <= i < |before| :: IsSpace(before[i])
    ensures TrimLeft(s) != "" ==> !IsSpace(TrimLeft(s)[0])
  {
    before := "";
    if s != "" && IsSpace(s[0]) {
      var rest := LeftTrimmed(s[1..]);
      before := [s[0]] + rest;
      assert s == [s[0]] + s[1..];
    }
  }

  lemma RightTrimmed(s: string) returns (after: string)
    ensures s == TrimRight(s) + after && forall i | 0 <= i < |after| :: IsSpace(after[i])
    ensures TrimRight(s) != "" ==> !IsSpace(TrimRight(s)[|TrimRight(s)| - 1])
  {
    after := "";
    if s != "" && IsSpace(s[|s| - 1]) {
      var rest := RightTrimmed(s[..|s| - 1]);
      after := rest + [s[|s| - 1]];
      assert s == s[..|s| - 1] + [s[|s| - 1]];
    }
  }

  lemma TrimLeftKeepsWords(s: string)
    ensures Words(TrimLeft(s)) == Words(s)
  {
  }
}

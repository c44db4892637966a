/**
 * The two name helpers of the upload backend: the professor folder name and
 * its quoting for the Drive search query (index.js, lines 94-98), and the name
 * of the temporary text file (index.js, line 135).
 *
 * JavaScript strings are modelled as sequences of Unicode characters.
 */
module Naming {
  import opened Wrappers

  // ---------------------------------------------------------------------------
  // String.prototype.trim
  // ---------------------------------------------------------------------------

  /**
   * The code points String.prototype.trim strips: ECMAScript WhiteSpace (tab,
   * vertical tab, form feed, space, no-break space, the byte order mark and the
   * other space separators) and LineTerminator (LF, CR, U+2028, U+2029).
   */
  predicate IsTrimmable(ch: char)
  {
    var n := ch as int;
    || n == 0x09 || n == 0x0A || n == 0x0B || n == 0x0C || n == 0x0D || n == 0x20
    || n == 0xA0 || n == 0x1680 || (0x2000 <= n <= 0x200A)
    || n == 0x2028 || n == 0x2029 || n == 0x202F || n == 0x205F || n == 0x3000 || n == 0xFEFF
  }

  /** Every character of `s` is trimmable (this includes the empty string). */
  predicate IsBlank(s: string)
  {
    forall k :: 0 <= k < |s| ==> IsTrimmable(s[k])
  }

  /** `s[i..j]` is what is left of `s` once its leading and trailing trimmable characters are cut. */
  ghost predicate TrimmedAt(s: string, i: nat, j: nat)
  {
    && i <= j <= |s|
    && (forall k :: 0 <= k < i ==> IsTrimmable(s[k]))
    && (forall k :: j <= k < |s| ==> IsTrimmable(s[k]))
    && (i < j ==> !IsTrimmable(s[i]) && !IsTrimmable(s[j - 1]))
  }

  /** `r` is `s` trimmed at both ends: the declarative meaning of String.prototype.trim. */
  ghost predicate IsTrimOf(r: string, s: string)
  {
    exists i: nat, j: nat :: TrimmedAt(s, i, j) && r == s[i..j]
  }

  /** The number of trimmable characters `s` starts with. */
  function LeadingTrimmable(s: string): (n: nat)
    ensures n <= |s|
    ensures forall k :: 0 <= k < n ==> IsTrimmable(s[k])
    ensures n < |s| ==> !IsTrimmable(s[n])
    decreases |s|
  {
    if s != [] && IsTrimmable(s[0]) then 1 + LeadingTrimmable(s[1..]) else 0
  }

  /** The number of trimmable characters `s` ends with. */
  function TrailingTrimmable(s: string): (n: nat)
    ensures n <= |s|
    ensures forall k :: |s| - n <= k < |s| ==> IsTrimmable(s[k])
    ensures n < |s| ==> !IsTrimmable(s[|s| - 1 - n])
    decreases |s|
  {
    if s != [] && IsTrimmable(s[|s| - 1]) then 1 + TrailingTrimmable(s[..|s| - 1]) else 0
  }

  /** The trim of `s` is empty exactly when `s` is blank. */
  lemma TrimmedAtBlank(s: string, i: nat, j: nat)
    requires TrimmedAt(s, i, j)
    ensures i == j <==> IsBlank(s)
  {
    if i < j {
      assert !IsTrimmable(s[i]);
    }
  }

  /** Where trim ends the result: before the trailing trimmable characters, or at `i` when all are. */
  function TrimEndIndex(s: string, i: nat): nat
    requires i <= |s|
  {
    if i == |s| then i else |s| - TrailingTrimmable(s)
  }

  /** Where trim cuts `s`: after its leading and before its trailing trimmable characters. */
  lemma TrimCutsAt(s: string)
    ensures var i := LeadingTrimmable(s);
      TrimmedAt(s, i, TrimEndIndex(s, i))
  {
    var i := LeadingTrimmable(s);
    if i < |s| {
      var n := TrailingTrimmable(s);
      assert !IsTrimmable(s[i]);
      assert i < |s| - n;
    }
  }

  /** String.prototype.trim: cut the leading, then the trailing trimmable characters. */
  function Trim(s: string): (r: string)
    ensures IsTrimOf(r, s)
    ensures r == [] <==> IsBlank(s)
    ensures r != [] ==> !IsTrimmable(r[0]) && !IsTrimmable(r[|r| - 1])
  {
    var i := LeadingTrimmable(s);
    var j := TrimEndIndex(s, i);
    TrimCutsAt(s);
    TrimmedAtBlank(s, i, j);
    s[i..j]
  }

  /** Only one string is `s` trimmed, so IsTrimOf pins Trim down. */
  lemma TrimOfIsUnique(s: string, r1: string, r2: string)
    requires IsTrimOf(r1, s) && IsTrimOf(r2, s)
    ensures r1 == r2
  {
    var i1: nat, j1: nat :| TrimmedAt(s, i1, j1) && r1 == s[i1..j1];
    var i2: nat, j2: nat :| TrimmedAt(s, i2, j2) && r2 == s[i2..j2];
    TrimmedAtBlank(s, i1, j1);
    TrimmedAtBlank(s, i2, j2);
    if i1 < j1 {
      assert !IsTrimmable(s[i1]) && !IsTrimmable(s[i2]);
      assert !IsTrimmable(s[j1 - 1]) && !IsTrimmable(s[j2 - 1]);
      assert i1 == i2 && j1 == j2;
    }
  }

  /** A string that starts and ends with a non-trimmable character is its own trim. */
  lemma TrimOfTrimmed(s: string)
    requires s != [] ==> !IsTrimmable(s[0]) && !IsTrimmable(s[|s| - 1])
    ensures Trim(s) == s
  {
    assert TrimmedAt(s, 0, |s|) && s == s[0..|s|];
    TrimOfIsUnique(s, Trim(s), s);
  }

  /** Trimming twice is trimming once. */
  lemma TrimIdempotent(s: string)
    ensures Trim(Trim(s)) == Trim(s)
  {
    var r := Trim(s);
    var i: nat, j: nat :| TrimmedAt(s, i, j) && r == s[i..j];
    TrimOfTrimmed(r);
  }

  // ---------------------------------------------------------------------------
  // Professor folder name (getOrCreateProfessorFolder, lines 94-98)
  // ---------------------------------------------------------------------------

  /** The folder used when no professor name is given. */
  const NoNameFolder: string := "SEM_NOME"

  /** The folder name: the trimmed professor name, or SEM_NOME when it is absent or blank. */
  function FolderName(professorName: Option<string>): (r: string)
    ensures r != [] && !IsTrimmable(r[0]) && !IsTrimmable(r[|r| - 1])
    ensures professorName.None? || IsBlank(professorName.value) ==> r == NoNameFolder
    ensures professorName.Some? && !IsBlank(professorName.value) ==> IsTrimOf(r, professorName.value)
  {
    if professorName.Some? && Trim(professorName.value) != [] then
      Trim(professorName.value)
    else
      assert NoNameFolder[0] == 'S' && NoNameFolder[|NoNameFolder| - 1] == 'E';
      NoNameFolder
  }

  /** A folder name chosen once is kept when it is chosen again. */
  lemma FolderNameIdempotent(professorName: Option<string>)
    ensures FolderName(Some(FolderName(professorName))) == FolderName(professorName)
  {
    var r := FolderName(professorName);
    TrimOfTrimmed(r);
  }

  /** How many times `ch` occurs in `s`. */
  function Occurrences(s: string, ch: char): nat
    decreases |s|
  {
    if s == [] then 0 else (if s[0] == ch then 1 else 0) + Occurrences(s[1..], ch)
  }

  /** Every single quote in `t` comes right after a backslash. */
  predicate QuotesEscaped(t: string)
  {
    forall k :: 0 <= k < |t| && t[k] == '\'' ==> 0 < k && t[k - 1] == '\\'
  }

  lemma QuotesEscapedConcat(a: string, b: string)
    requires QuotesEscaped(a) && QuotesEscaped(b)
    ensures QuotesEscaped(a + b)
  {
    forall k | |a| <= k < |a + b| && (a + b)[k] == '\''
      ensures 0 < k && (a + b)[k - 1] == '\\'
    {
      assert (a + b)[k] == b[k - |a|];
      assert 0 < k - |a|;
      assert (a + b)[k - 1] == b[k - |a| - 1];
    }
  }

  /** Puts a backslash before every single quote (line 98). */
  function EscapeQuotes(s: string): (r: string)
    ensures |r| == |s| + Occurrences(s, '\'')
    ensures QuotesEscaped(r)
    decreases |s|
  {
    if s == [] then []
    else
      var head := if s[0] == '\'' then ['\\', '\''] else [s[0]];
      var e := EscapeQuotes(s[1..]);
      QuotesEscapedConcat(head, e);
      head + e
  }

  /**
   * Reads the body of a quoted query literal back: `\'` stands for a quote and
   * every other character for itself.
   */
  function Unescape(t: string): string
    decreases |t|
  {
    if t == [] then []
    else if |t| >= 2 && t[0] == '\\' && t[1] == '\'' then ['\''] + Unescape(t[2..])
    else [t[0]] + Unescape(t[1..])
  }

  /** Escaping loses nothing: reading the escaped name back gives the name. */
  lemma {:induction false} UnescapeEscapeQuotes(s: string)
    ensures Unescape(EscapeQuotes(s)) == s
    decreases |s|
  {
    if s != [] {
      var e := EscapeQuotes(s[1..]);
      UnescapeEscapeQuotes(s[1..]);
      var t := EscapeQuotes(s);
      if s[0] == '\'' {
        assert t[2..] == e;
      } else {
        assert t[1..] == e;
        assert e != [] ==> e[0] != '\'';
      }
    }
  }

  /** The name as it is written inside the quotes of the folder search query. */
  function QueryFolderName(professorName: Option<string>): (r: string)
    ensures |r| == |FolderName(professorName)| + Occurrences(FolderName(professorName), '\'')
    ensures Unescape(r) == FolderName(professorName)
    ensures QuotesEscaped(r)
  {
    UnescapeEscapeQuotes(FolderName(professorName));
    EscapeQuotes(FolderName(professorName))
  }

  // ---------------------------------------------------------------------------
  // Temporary file name (writeTempTxt, line 135)
  // ---------------------------------------------------------------------------

  /** The name used when no file name is given. */
  const DefaultTempName: string := "anotacoes.txt"

  /** The characters the temporary file name may not contain: \ / : * ? " < > | */
  predicate IsReserved(ch: char)
  {
    ch == '\\' || ch == '/' || ch == ':' || ch == '*' || ch == '?' || ch == '"' || ch == '<' || ch == '>' || ch == '|'
  }

  /** Replaces every reserved character with an underscore. */
  function ReplaceReserved(s: string): (r: string)
    ensures |r| == |s|
    ensures forall k :: 0 <= k < |s| ==> r[k] == (if IsReserved(s[k]) then '_' else s[k])
    ensures forall k :: 0 <= k < |r| ==> !IsReserved(r[k])
    decreases |s|
  {
    if s == [] then []
    else [if IsReserved(s[0]) then '_' else s[0]] + ReplaceReserved(s[1..])
  }

  /** The temporary file name: the given name with reserved characters replaced, or anotacoes.txt. */
  function TempFileName(filename: Option<string>): (r: string)
    ensures r != []
    ensures forall k :: 0 <= k < |r| ==> !IsReserved(r[k])
    ensures filename.None? || filename.value == [] ==> r == DefaultTempName
    ensures filename.Some? && filename.value != [] ==>
      && |r| == |filename.value|
      && (forall k :: 0 <= k < |r| && !IsReserved(filename.value[k]) ==> r[k] == filename.value[k])
      && (forall k :: 0 <= k < |r| && IsReserved(filename.value[k]) ==> r[k] == '_')
  {
    if filename.Some? && filename.value != [] then
      ReplaceReserved(filename.value)
    else
      DefaultTempNameIsClean();
      ReplaceReservedKeepsClean(DefaultTempName);
      ReplaceReserved(DefaultTempName)
  }

  /** The default name has no reserved character. */
  lemma DefaultTempNameIsClean()
    ensures forall k :: 0 <= k < |DefaultTempName| ==> !IsReserved(DefaultTempName[k])
  {
  }

  /** A name without reserved characters is left as it is. */
  lemma ReplaceReservedKeepsClean(s: string)
    requires forall k :: 0 <= k < |s| ==> !IsReserved(s[k])
    ensures ReplaceReserved(s) == s
  {
  }

  /** Sanitising a temporary file name a second time changes nothing. */
  lemma TempFileNameIdempotent(filename: Option<string>)
    ensures TempFileName(Some(TempFileName(filename))) == TempFileName(filename)
  {
    ReplaceReservedKeepsClean(TempFileName(filename));
  }
}

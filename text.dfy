/**
 * The few operations of Rust's `str` that the core relies on, over `seq<char>`:
 * `char::is_whitespace`, `str::contains`, `str::trim`, `str::split_whitespace`
 * and `str::lines`.
 */
module Text {
  import opened Results

  /** Rust's `char::is_whitespace`: the Unicode White_Space property. */
  predicate IsWhitespace(c: char) {
    ('\t' <= c <= '\r') || c == ' ' || c == '\U{85}' || c == '\U{A0}' || c == '\U{1680}'
    || ('\U{2000}' <= c <= '\U{200A}') || c == '\U{2028}' || c == '\U{2029}'
    || c == '\U{202F}' || c == '\U{205F}' || c == '\U{3000}'
  }

  /** Every character of `s` is whitespace. */
  predicate Blank(s: string) {
    forall i :: 0 <= i < |s| ==> IsWhitespace(s[i])
  }

  // ---------------------------------------------------------------- contains

  /** `sub` occurs in `s` starting at index `i`. */
  predicate OccursAt(s: string, sub: string, i: int) {
    0 <= i <= |s| - |sub| && s[i..i + |sub|] == sub
  }

  /** Rust's `s.contains(sub)`: scans `s` from the left for `sub`. */
  predicate Contains(s: string, sub: string)
    decreases |s|
  {
    |sub| <= |s| && (s[..|sub|] == sub || Contains(s[1..], sub))
  }

  /** The scan finds `sub` exactly when it occurs at some index. */
  lemma {:induction false} ContainsIff(s: string, sub: string)
    ensures Contains(s, sub) <==> exists i :: OccursAt(s, sub, i)
    decreases |s|
  {
    if |sub| <= |s| && s[..|sub|] != sub {
      ContainsIff(s[1..], sub);
      if Contains(s[1..], sub) {
        var i :| OccursAt(s[1..], sub, i);
        assert s[1..][i..i + |sub|] == s[i + 1..i + 1 + |sub|];
        assert OccursAt(s, sub, i + 1);
      }
      if i :| OccursAt(s, sub, i) {
        assert i != 0;
        assert s[1..][i - 1..i - 1 + |sub|] == s[i..i + |sub|];
        assert OccursAt(s[1..], sub, i - 1);
      }
    } else if |sub| <= |s| {
      assert OccursAt(s, sub, 0);
    }
  }

  /** A string containing a non-blank string is not blank. */
  lemma {:induction false} ContainsNonBlank(s: string, sub: string)
    requires Contains(s, sub) && !Blank(sub)
    ensures !Blank(s)
  {
    ContainsIff(s, sub);
    var i :| OccursAt(s, sub, i);
    var j :| 0 <= j < |sub| && !IsWhitespace(sub[j]);
    assert s[i + j] == sub[j];
  }

  // -------------------------------------------------------------------- trim

  /** Rust's `trim_start`: drop leading whitespace. */
  function TrimStart(s: string): string
    decreases |s|
  {
    if s != [] && IsWhitespace(s[0]) then TrimStart(s[1..]) else s
  }

  /** Rust's `trim_end`: drop trailing whitespace. */
  function TrimEnd(s: string): string
    decreases |s|
  {
    if s != [] && IsWhitespace(s[|s| - 1]) then TrimEnd(s[..|s| - 1]) else s
  }

  /** Rust's `trim`. */
  function Trim(s: string): string {
    TrimEnd(TrimStart(s))
  }

  lemma {:induction false} TrimStartBlank(s: string)
    ensures Blank(TrimStart(s)) <==> Blank(s)
    ensures TrimStart(s) != [] ==> !IsWhitespace(TrimStart(s)[0])
    decreases |s|
  {
    if s != [] && IsWhitespace(s[0]) {
      TrimStartBlank(s[1..]);
      assert Blank(s[1..]) ==> Blank(s) by {
        if Blank(s[1..]) {
          forall i | 0 <= i < |s| ensures IsWhitespace(s[i]) {
            if i > 0 { assert s[i] == s[1..][i - 1]; }
          }
        }
      }
    }
  }

  lemma {:induction false} TrimEndEmpty(s: string)
    ensures TrimEnd(s) == [] <==> Blank(s)
    decreases |s|
  {
    if s != [] && IsWhitespace(s[|s| - 1]) {
      var p := s[..|s| - 1];
      TrimEndEmpty(p);
      assert Blank(p) <==> Blank(s) by {
        if Blank(p) {
          forall i | 0 <= i < |s| ensures IsWhitespace(s[i]) {
            if i < |s| - 1 { assert s[i] == p[i]; }
          }
        }
      }
    } else if s != [] {
      assert !IsWhitespace(s[|s| - 1]);
    }
  }

  /** `s.trim().is_empty()` holds exactly when `s` is all whitespace. */
  lemma {:induction false} TrimEmptyIffBlank(s: string)
    ensures Trim(s) == [] <==> Blank(s)
  {
    TrimStartBlank(s);
    TrimEndEmpty(TrimStart(s));
  }

  // -------------------------------------------------------- split_whitespace

  /** A field of `split_whitespace`: non-empty and free of whitespace. */
  predicate IsToken(t: string) {
    t != [] && forall i :: 0 <= i < |t| ==> !IsWhitespace(t[i])
  }

  /** Length of the run of non-whitespace characters that starts `s`. */
  function TokenLength(s: string): (n: nat)
    ensures n <= |s|
    ensures n < |s| ==> IsWhitespace(s[n])
    decreases |s|
  {
    if s == [] || IsWhitespace(s[0]) then 0 else 1 + TokenLength(s[1..])
  }

  /** The leading run holds no whitespace, so it is a token when it is not empty. */
  lemma {:induction false} TokenLengthRun(s: string)
    ensures forall i :: 0 <= i < TokenLength(s) ==> !IsWhitespace(s[i])
    decreases |s|
  {
    if s != [] && !IsWhitespace(s[0]) {
      TokenLengthRun(s[1..]);
      forall i | 0 < i < TokenLength(s) ensures !IsWhitespace(s[i]) {
        assert s[i] == s[1..][i - 1];
      }
    }
  }

  /** Rust's `split_whitespace`: the maximal non-whitespace runs, in order. */
  function SplitWhitespace(s: string): (fields: seq<string>)
    ensures forall k :: 0 <= k < |fields| ==> IsToken(fields[k])
    decreases |s|
  {
    if s == [] then []
    else if IsWhitespace(s[0]) then SplitWhitespace(s[1..])
    else
      var n := TokenLength(s);
      TokenLengthRun(s);
      [s[..n]] + SplitWhitespace(s[n..])
  }

  /** Fields joined by single spaces (the inverse of `SplitWhitespace` on tokens). */
  function JoinSpaces(fields: seq<string>): string
    decreases |fields|
  {
    if fields == [] then []
    else if |fields| == 1 then fields[0]
    else fields[0] + " " + JoinSpaces(fields[1..])
  }

  lemma {:induction false} TokenLengthOfToken(t: string, rest: string)
    requires IsToken(t)
    requires rest == [] || IsWhitespace(rest[0])
    ensures TokenLength(t + rest) == |t|
    decreases |t|
  {
    if |t| > 1 {
      assert (t + rest)[1..] == t[1..] + rest;
      TokenLengthOfToken(t[1..], rest);
    } else {
      assert (t + rest)[1..] == rest;
    }
  }

  /** A token followed by whitespace or nothing is split off as the first field. */
  lemma {:induction false} SplitAfterToken(t: string, rest: string)
    requires IsToken(t)
    requires rest == [] || IsWhitespace(rest[0])
    ensures SplitWhitespace(t + rest) == [t] + SplitWhitespace(rest)
  {
    var s := t + rest;
    TokenLengthOfToken(t, rest);
    assert s[..|t|] == t;
    assert s[|t|..] == rest;
  }

  /** A leading space does not change the fields. */
  lemma {:induction false} SplitLeadingSpace(j: string)
    ensures SplitWhitespace(" " + j) == SplitWhitespace(j)
  {
    assert (" " + j)[1..] == j;
  }

  /** Splitting space-joined tokens gives the tokens back. */
  lemma {:induction false} SplitJoin(fields: seq<string>)
    requires forall k :: 0 <= k < |fields| ==> IsToken(fields[k])
    ensures SplitWhitespace(JoinSpaces(fields)) == fields
    decreases |fields|
  {
    if |fields| == 1 {
      SplitAfterToken(fields[0], []);
      assert fields[0] + [] == fields[0];
    } else if |fields| > 1 {
      var t, j := fields[0], JoinSpaces(fields[1..]);
      ConcatAssoc(t, " ", j);
      SplitAfterToken(t, " " + j);
      SplitLeadingSpace(j);
      SplitJoin(fields[1..]);
      assert [t] + fields[1..] == fields;
    }
  }

  /** The only whitespace in tokens joined by spaces is the separating spaces. */
  lemma {:induction false} JoinSpacesBlankFree(fields: seq<string>)
    requires forall k :: 0 <= k < |fields| ==> IsToken(fields[k])
    ensures forall j :: 0 <= j < |JoinSpaces(fields)| ==>
      JoinSpaces(fields)[j] == ' ' || !IsWhitespace(JoinSpaces(fields)[j])
    decreases |fields|
  {
    if |fields| > 1 {
      var t, j := fields[0], JoinSpaces(fields[1..]);
      JoinSpacesBlankFree(fields[1..]);
      ConcatAssoc(t, " ", j);
      var s := t + (" " + j);
      forall i | 0 <= i < |s| ensures s[i] == ' ' || !IsWhitespace(s[i]) {
        if i < |t| {
          assert s[i] == t[i];
        } else if i > |t| {
          assert s[i] == j[i - |t| - 1];
        }
      }
    }
  }

  // ------------------------------------------------------------------- lines

  /** Index of the first `'\n'` in `s`, or `|s|` when there is none. */
  function IndexOfNewline(s: string): (i: nat)
    ensures i <= |s|
    ensures i < |s| ==> s[i] == '\n'
    decreases |s|
  {
    if s == [] || s[0] == '\n' then 0 else 1 + IndexOfNewline(s[1..])
  }

  /** No newline comes before the one `IndexOfNewline` finds. */
  lemma {:induction false} IndexOfNewlineFirst(s: string)
    ensures forall j :: 0 <= j < IndexOfNewline(s) ==> s[j] != '\n'
    decreases |s|
  {
    if s != [] && s[0] != '\n' {
      IndexOfNewlineFirst(s[1..]);
      forall j | 0 < j < IndexOfNewline(s) ensures s[j] != '\n' {
        assert s[j] == s[1..][j - 1];
      }
    }
  }

  /** A line without a newline, followed by one, has its newline at the end. */
  lemma {:induction false} IndexOfNewlineOfLine(line: string, rest: string)
    requires forall j :: 0 <= j < |line| ==> line[j] != '\n'
    ensures IndexOfNewline(line + "\n" + rest) == |line|
    decreases |line|
  {
    if line != [] {
      assert (line + "\n" + rest)[1..] == line[1..] + "\n" + rest;
      IndexOfNewlineOfLine(line[1..], rest);
    }
  }

  /** Removes the `'\r'` of a `"\r\n"` terminator. */
  function StripCr(line: string): string {
    if line != [] && line[|line| - 1] == '\r' then line[..|line| - 1] else line
  }

  /**
   * Rust's `str::lines`: split after every `'\n'`, drop the terminator and
   * a `'\r'` just before it; a final line without `'\n'` is kept as is and
   * no empty line follows a final `'\n'`.
   */
  function Lines(s: string): seq<string>
    decreases |s|
  {
    if s == [] then []
    else
      var i := IndexOfNewline(s);
      if i == |s| then [s] else [StripCr(s[..i])] + Lines(s[i + 1..])
  }

  lemma {:induction false} IndexOfNewlineAppend(a: string, b: string)
    requires IndexOfNewline(a) < |a|
    ensures IndexOfNewline(a + b) == IndexOfNewline(a)
    decreases |a|
  {
    if a[0] != '\n' {
      assert (a + b)[1..] == a[1..] + b;
      IndexOfNewlineAppend(a[1..], b);
    }
  }

  /** The text after the first newline of complete lines is complete lines too. */
  lemma {:induction false} AfterNewlineComplete(a: string)
    requires a != [] && a[|a| - 1] == '\n'
    ensures IndexOfNewline(a) < |a|
    ensures var rest := a[IndexOfNewline(a) + 1..]; rest == [] || rest[|rest| - 1] == '\n'
  {
    IndexOfNewlineFirst(a);
    var i := IndexOfNewline(a);
    assert i < |a|;
    var rest := a[i + 1..];
    if rest != [] { assert rest[|rest| - 1] == a[|a| - 1]; }
  }

  /** `Lines` splits off the text up to the first newline. */
  lemma {:induction false} LinesUnfold(s: string)
    requires IndexOfNewline(s) < |s|
    ensures Lines(s) == [StripCr(s[..IndexOfNewline(s)])] + Lines(s[IndexOfNewline(s) + 1..])
  {
  }

  /** Slicing `a + b` within and just after `a`. */
  lemma {:induction false} SliceAppend(a: string, b: string, i: nat)
    requires i < |a|
    ensures (a + b)[..i] == a[..i]
    ensures (a + b)[i + 1..] == a[i + 1..] + b
  {
  }

  /** One step of `LinesAppend`: the first line of `a` is split off on both sides. */
  lemma {:induction false} LinesAppendStep(a: string, b: string)
    requires IndexOfNewline(a) < |a|
    requires Lines(a[IndexOfNewline(a) + 1..] + b) == Lines(a[IndexOfNewline(a) + 1..]) + Lines(b)
    ensures Lines(a + b) == Lines(a) + Lines(b)
  {
    var i := IndexOfNewline(a);
    var x, rest := [StripCr(a[..i])], a[i + 1..];
    IndexOfNewlineAppend(a, b);
    SliceAppend(a, b, i);
    LinesUnfold(a);
    LinesUnfold(a + b);
    ConcatAssoc(x, Lines(rest), Lines(b));
  }

  /** Text made of complete lines splits independently of what follows it. */
  lemma {:induction false} LinesAppend(a: string, b: string)
    requires a == [] || a[|a| - 1] == '\n'
    ensures Lines(a + b) == Lines(a) + Lines(b)
    decreases |a|
  {
    if a == [] {
      assert a + b == b;
      assert Lines(a) == [];
    } else {
      AfterNewlineComplete(a);
      LinesAppend(a[IndexOfNewline(a) + 1..], b);
      LinesAppendStep(a, b);
    }
  }

  /** A single line with its terminator. */
  lemma {:induction false} LinesOfLine(line: string)
    requires forall j :: 0 <= j < |line| ==> line[j] != '\n'
    ensures Lines(line + "\n") == [StripCr(line)]
  {
    var s := line + "\n";
    IndexOfNewlineOfLine(line, []);
    assert line + "\n" + [] == s;
    assert s[..|line|] == line;
    assert s[|line| + 1..] == [];
  }
}

/**
 * Names the server derives from a course title: the URL slug
 * `courseTitle.toLowerCase().replace(/\s+|_/g, '-')` and the file name of an
 * uploaded variables table, `'data/' + title.replace(/-/g, '_') + '_variables.csv'`.
 */
module UrlNames {

  /** The characters JavaScript's `\s` class matches. */
  predicate IsSpace(c: char) {
    || c == ' ' || c == '\t' || c == '\n' || c == '\r' || c == '\U{B}' || c == '\U{C}'
    || c == '\U{A0}' || c == '\U{1680}' || ('\U{2000}' <= c <= '\U{200A}')
    || c == '\U{2028}' || c == '\U{2029}' || c == '\U{202F}' || c == '\U{205F}'
    || c == '\U{3000}' || c == '\U{FEFF}'
  }

  predicate IsUpper(c: char) { 'A' <= c <= 'Z' }

  /** `toLowerCase` on one character, for the ASCII letters. */
  function LowerChar(c: char): (r: char)
    ensures !IsUpper(r)
    ensures IsSpace(r) <==> IsSpace(c)
    ensures r == '_' <==> c == '_'
    ensures !IsUpper(c) ==> r == c
  {
    if IsUpper(c) then (c as int + 32) as char else c
  }

  function Lower(s: string): (r: string)
    ensures |r| == |s|
    ensures forall i :: 0 <= i < |s| ==> r[i] == LowerChar(s[i])
  {
    if s == [] then [] else [LowerChar(s[0])] + Lower(s[1..])
  }

  /** Nothing left for the replacement to rewrite: no whitespace and no underscore. */
  predicate Dashed(s: string) {
    forall i :: 0 <= i < |s| ==> !IsSpace(s[i]) && s[i] != '_'
  }

  predicate NoUpper(s: string) {
    forall i :: 0 <= i < |s| ==> !IsUpper(s[i])
  }

  /** The text after the run of whitespace that `s` begins with. */
  function SkipSpaces(s: string): (r: string)
    ensures |r| <= |s| && r == s[|s| - |r|..]
    ensures forall i :: 0 <= i < |s| - |r| ==> IsSpace(s[i])
    ensures r == [] || !IsSpace(r[0])
  {
    if s != [] && IsSpace(s[0]) then SkipSpaces(s[1..]) else s
  }

  /** `replace(/\s+|_/g, '-')`: each maximal run of whitespace, and each underscore, becomes one `-`. */
  function Dashify(s: string): (r: string)
    ensures |r| <= |s|
    decreases |s|
  {
    if s == [] then []
    else if IsSpace(s[0]) then "-" + Dashify(SkipSpaces(s[1..]))
    else if s[0] == '_' then "-" + Dashify(s[1..])
    else [s[0]] + Dashify(s[1..])
  }

  lemma ConsDashed(c: char, x: string)
    requires !IsSpace(c) && c != '_' && Dashed(x)
    ensures Dashed([c] + x)
  {
  }

  lemma ConsNoUpper(c: char, x: string)
    requires !IsUpper(c) && NoUpper(x)
    ensures NoUpper([c] + x)
  {
  }

  /** The replacement leaves no whitespace and no underscore. */
  lemma {:induction false} DashifyDashed(s: string)
    ensures Dashed(Dashify(s))
    decreases |s|
  {
    if s == [] {
    } else if IsSpace(s[0]) {
      DashifyDashed(SkipSpaces(s[1..]));
      ConsDashed('-', Dashify(SkipSpaces(s[1..])));
    } else if s[0] == '_' {
      DashifyDashed(s[1..]);
      ConsDashed('-', Dashify(s[1..]));
    } else {
      DashifyDashed(s[1..]);
      ConsDashed(s[0], Dashify(s[1..]));
    }
  }

  /** The replacement brings in no upper-case letter. */
  lemma {:induction false} DashifyNoUpper(s: string)
    requires NoUpper(s)
    ensures NoUpper(Dashify(s))
    decreases |s|
  {
    if s == [] {
    } else if IsSpace(s[0]) {
      var rest := SkipSpaces(s[1..]);
      assert NoUpper(rest) by {
        forall i | 0 <= i < |rest| ensures !IsUpper(rest[i]) {
          assert rest[i] == s[|s| - |rest| + i];
        }
      }
      DashifyNoUpper(rest);
      ConsNoUpper('-', Dashify(rest));
    } else {
      DashifyNoUpper(s[1..]);
      ConsNoUpper(if s[0] == '_' then '-' else s[0], Dashify(s[1..]));
    }
  }

  /** The course-title slug used in course URLs. */
  function Slug(title: string): (r: string)
    ensures |r| <= |title|
    ensures Dashed(r) && NoUpper(r)
  {
    DashifyDashed(Lower(title));
    DashifyNoUpper(Lower(title));
    Dashify(Lower(title))
  }

  /** A string the replacement has nothing to do in is left as it is. */
  lemma {:induction false} DashifyFixes(s: string)
    requires Dashed(s)
    ensures Dashify(s) == s
    decreases |s|
  {
    if s != [] {
      DashifyFixes(s[1..]);
    }
  }

  lemma {:induction false} LowerFixes(s: string)
    requires NoUpper(s)
    ensures Lower(s) == s
  {
  }

  /** Slugging a slug changes nothing. */
  lemma SlugIdempotent(title: string)
    ensures Slug(Slug(title)) == Slug(title)
  {
    var s := Slug(title);
    LowerFixes(s);
    DashifyFixes(s);
  }

  /** A whitespace run followed by other text: skipping the run of the joined string skips it in the first part only. */
  lemma {:induction false} SkipSpacesConcat(a: string, b: string)
    requires a != [] && !IsSpace(a[|a| - 1])
    ensures SkipSpaces(a + b) == SkipSpaces(a) + b
    decreases |a|
  {
    if IsSpace(a[0]) {
      assert (a + b)[1..] == a[1..] + b;
      SkipSpacesConcat(a[1..], b);
    }
  }

  /**
   * The replacement works piece by piece: cutting the title where the left part
   * is empty or does not end in whitespace does not change the result.
   */
  lemma {:induction false} DashifyConcat(a: string, b: string)
    requires a == [] || !IsSpace(a[|a| - 1])
    ensures Dashify(a + b) == Dashify(a) + Dashify(b)
    decreases |a|, 1
  {
    if a == [] {
      assert a + b == b;
    } else if IsSpace(a[0]) {
      DashifyConcatRun(a, b);
    } else {
      assert (a + b)[1..] == a[1..] + b;
      DashifyConcat(a[1..], b);
    }
  }

  lemma {:induction false} DashifyConcatRun(a: string, b: string)
    requires a != [] && IsSpace(a[0]) && !IsSpace(a[|a| - 1])
    ensures Dashify(a + b) == Dashify(a) + Dashify(b)
    decreases |a|, 0
  {
    var rest := SkipSpaces(a[1..]);
    assert !IsSpace(a[1..][|a[1..]| - 1]);
    assert rest != [] && rest[|rest| - 1] == a[|a| - 1];
    assert (a + b)[1..] == a[1..] + b;
    SkipSpacesConcat(a[1..], b);
    assert Dashify(a + b) == "-" + Dashify(rest + b);
    assert Dashify(a) == "-" + Dashify(rest);
    DashifyConcat(rest, b);
    DashBefore(Dashify(rest), Dashify(b));
  }

  lemma DashBefore(x: string, y: string)
    ensures "-" + (x + y) == ("-" + x) + y
  {
  }

  /** A run of whitespace, however long, becomes a single `-`. */
  lemma {:induction false} DashifyRun(ws: string)
    requires ws != [] && forall i :: 0 <= i < |ws| ==> IsSpace(ws[i])
    ensures Dashify(ws) == "-"
  {
    assert SkipSpaces(ws[1..]) == [];
  }

  /** `replace(/-/g, '_')`. */
  function Underscored(s: string): (r: string)
    ensures |r| == |s|
    ensures forall i :: 0 <= i < |s| ==> r[i] != '-'
    ensures forall i :: 0 <= i < |s| ==> r[i] == (if s[i] == '-' then '_' else s[i])
  {
    if s == [] then [] else [if s[0] == '-' then '_' else s[0]] + Underscored(s[1..])
  }

  const DataDir := "data/"
  const VariablesSuffix := "_variables.csv"

  /** Where an uploaded variables table for a course is written. */
  function VariablesPath(title: string): (r: string)
    ensures |r| == |DataDir| + |title| + |VariablesSuffix|
    ensures r[..|DataDir|] == DataDir
    ensures r[|r| - |VariablesSuffix|..] == VariablesSuffix
    ensures r[|DataDir|..|r| - |VariablesSuffix|] == Underscored(title)
  {
    DataDir + Underscored(title) + VariablesSuffix
  }

  /** Two titles agree up to swapping `-` and `_`. */
  predicate SameUpToDashes(t1: string, t2: string) {
    |t1| == |t2| &&
    forall i :: 0 <= i < |t1| ==>
      t1[i] == t2[i] || ((t1[i] == '-' || t1[i] == '_') && (t2[i] == '-' || t2[i] == '_'))
  }

  /** Two courses share a variables file exactly when their titles agree up to `-` and `_`. */
  lemma VariablesPathCollides(t1: string, t2: string)
    ensures VariablesPath(t1) == VariablesPath(t2) <==> SameUpToDashes(t1, t2)
  {
    var u1, u2 := Underscored(t1), Underscored(t2);
    if VariablesPath(t1) == VariablesPath(t2) {
      assert u1 == u2;
    }
    if SameUpToDashes(t1, t2) {
      assert forall i :: 0 <= i < |u1| ==> u1[i] == u2[i];
      assert u1 == u2;
    }
  }
}

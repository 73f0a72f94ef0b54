/** The file name `testWriterAgent` saves a generated test under: the test
    name lowercased, every run of characters outside `[a-z0-9]` replaced by
    one `-`, one dash trimmed from each end, and `.spec.ts` appended. */
module Slug {

  /** `toLowerCase` on ASCII: `A`-`Z` map to `a`-`z`, everything else is kept. */
  function LowerChar(c: char): char {
    if 'A' <= c <= 'Z' then (c as int + 32) as char else c
  }

  function Lower(s: string): (r: string)
    ensures |r| == |s|
    ensures forall i :: 0 <= i < |s| ==> r[i] == LowerChar(s[i])
  {
    if s == [] then [] else [LowerChar(s[0])] + Lower(s[1..])
  }

  /** The class `[a-z0-9]`. */
  predicate IsSlugChar(c: char) {
    'a' <= c <= 'z' || '0' <= c <= '9'
  }

  /** Only `[a-z0-9]` and `-`. */
  predicate SlugChars(s: string) {
    forall i :: 0 <= i < |s| ==> IsSlugChar(s[i]) || s[i] == '-'
  }

  /** No two dashes in a row. */
  predicate NoDoubleDash(s: string) {
    forall i :: 0 < i < |s| ==> !(s[i - 1] == '-' && s[i] == '-')
  }

  /** What the file-name slug always looks like. */
  predicate WellFormed(s: string) {
    && SlugChars(s)
    && NoDoubleDash(s)
    && (s != [] ==> s[0] != '-' && s[|s| - 1] != '-')
  }

  /** The rest of the string after the maximal run of `[^a-z0-9]` at its
      front: what a greedy match of `[^a-z0-9]+` consumes. */
  function SkipRun(s: string): (r: string)
    ensures |r| <= |s| && r == s[|s| - |r|..]
    ensures r == [] || IsSlugChar(r[0])
    ensures s != [] && !IsSlugChar(s[0]) ==> |r| < |s|
    ensures s != [] && IsSlugChar(s[0]) ==> r == s
  {
    if s == [] || IsSlugChar(s[0]) then s else SkipRun(s[1..])
  }

  /** `.replace(/[^a-z0-9]+/g, '-')`: each maximal run of characters outside
      `[a-z0-9]` becomes a single dash. */
  function Collapse(s: string): (r: string)
    ensures SlugChars(r) && NoDoubleDash(r)
    ensures r == [] <==> s == []
    ensures r != [] ==> (r[0] == '-' <==> !IsSlugChar(s[0]))
    decreases |s|
  {
    if s == [] then []
    else if IsSlugChar(s[0]) then [s[0]] + Collapse(s[1..])
    else "-" + Collapse(SkipRun(s))
  }

  /** `.replace(/^-|-$/g, '')`: a dash at the very start and a dash at the
      very end are removed. A single `-` is matched once, by `^-`. */
  function Trim(s: string): string {
    var a := if s != [] && s[0] == '-' then s[1..] else s;
    if a != [] && a[|a| - 1] == '-' then a[..|a| - 1] else a
  }

  /** The sanitised test name. */
  function Slug(name: string): string {
    Trim(Collapse(Lower(name)))
  }

  /** The name the generated test is saved under. */
  function SpecFileName(name: string): string {
    Slug(name) + ".spec.ts"
  }

  /** The file name is a well-formed slug that keeps the name's letters
      and digits, followed by `.spec.ts`. */
  lemma SpecFileNameShape(name: string)
    ensures var r := SpecFileName(name);
      && |r| >= 8 && r[|r| - 8..] == ".spec.ts"
      && WellFormed(r[..|r| - 8]) && Kept(r[..|r| - 8]) == Kept(Lower(name))
  {
    SlugWellFormed(name);
    SlugKeepsAlphanumerics(name);
    var r := SpecFileName(name);
    assert r[..|r| - 8] == Slug(name);
  }

  /** The slug contains only `[a-z0-9-]`, has no `--`, and neither starts
      nor ends with a dash. */
  lemma SlugWellFormed(name: string)
    ensures WellFormed(Slug(name))
  {
    var c := Collapse(Lower(name));
    var a := if c != [] && c[0] == '-' then c[1..] else c;
    assert SlugChars(a) && NoDoubleDash(a);
    assert a != [] ==> a[0] != '-';
    var r := Trim(c);
    if a != [] && a[|a| - 1] == '-' {
      assert r == a[..|a| - 1];
      if r != [] {
        assert r[|r| - 1] == a[|a| - 2];
      }
    }
  }

  /** A well-formed slug is its own slug. */
  lemma SlugOfWellFormed(t: string)
    requires WellFormed(t)
    ensures Slug(t) == t
  {
    LowerOfSlugChars(t);
    CollapseOfSlugChars(t);
  }

  /** Sanitising twice is sanitising once. */
  lemma SlugIdempotent(name: string)
    ensures Slug(Slug(name)) == Slug(name)
  {
    SlugWellFormed(name);
    SlugOfWellFormed(Slug(name));
  }

  lemma LowerOfSlugChars(t: string)
    requires SlugChars(t)
    ensures Lower(t) == t
  {
    assert forall i :: 0 <= i < |t| ==> LowerChar(t[i]) == t[i];
  }

  /** Dropping the first character keeps a string of `[a-z0-9-]` without `--`. */
  lemma DropFirst(t: string)
    requires t != [] && SlugChars(t) && NoDoubleDash(t)
    ensures SlugChars(t[1..]) && NoDoubleDash(t[1..])
  {
    forall i | 0 < i < |t[1..]| ensures !(t[1..][i - 1] == '-' && t[1..][i] == '-') {
      assert t[1..][i - 1] == t[i] && t[1..][i] == t[i + 1];
    }
  }

  /** A string of `[a-z0-9-]` without `--` has no run longer than one dash. */
  lemma {:induction false} CollapseOfSlugChars(t: string)
    requires SlugChars(t) && NoDoubleDash(t)
    ensures Collapse(t) == t
    decreases |t|
  {
    if t != [] {
      DropFirst(t);
      CollapseOfSlugChars(t[1..]);
      if !IsSlugChar(t[0]) {
        assert t[0] == '-';
        assert |t| > 1 ==> t[1] != '-';
        assert SkipRun(t) == t[1..];
        assert Collapse(t) == "-" + t[1..];
      } else {
        assert Collapse(t) == [t[0]] + t[1..];
      }
      assert t == [t[0]] + t[1..];
    }
  }

  /** The characters of `[a-z0-9]` in a string, in order. */
  function Kept(s: string): string {
    if s == [] then [] else Head(s[0]) + Kept(s[1..])
  }

  /** What `Kept` keeps of one character. */
  function Head(c: char): string {
    if IsSlugChar(c) then [c] else []
  }

  lemma {:induction false} KeptConcat(a: string, b: string)
    ensures Kept(a + b) == Kept(a) + Kept(b)
  {
    if a == [] {
      assert a + b == b;
    } else {
      var ab := a + b;
      assert ab[0] == a[0] && ab[1..] == a[1..] + b;
      KeptConcat(a[1..], b);
      assert Kept(ab) == Head(a[0]) + (Kept(a[1..]) + Kept(b));
      assert Kept(a) == Head(a[0]) + Kept(a[1..]);
    }
  }

  /** Skipping a run drops nothing that the slug keeps. */
  lemma {:induction false} KeptSkipRun(s: string)
    ensures Kept(SkipRun(s)) == Kept(s)
  {
    if s != [] && !IsSlugChar(s[0]) {
      KeptSkipRun(s[1..]);
    }
  }

  lemma {:induction false} KeptCollapse(s: string)
    ensures Kept(Collapse(s)) == Kept(s)
    decreases |s|
  {
    if s != [] {
      if IsSlugChar(s[0]) {
        KeptConcat([s[0]], Collapse(s[1..]));
        KeptCollapse(s[1..]);
      } else {
        KeptConcat("-", Collapse(SkipRun(s)));
        KeptCollapse(SkipRun(s));
        KeptSkipRun(s);
      }
    }
  }

  lemma KeptTrim(s: string)
    ensures Kept(Trim(s)) == Kept(s)
  {
    var a := if s != [] && s[0] == '-' then s[1..] else s;
    assert Kept("-") == [];
    assert Kept(a) == Kept(s) by {
      if s != [] && s[0] == '-' {
        assert s == "-" + s[1..];
        KeptConcat("-", s[1..]);
      }
    }
    assert Kept(Trim(s)) == Kept(a) by {
      if a != [] && a[|a| - 1] == '-' {
        assert a == a[..|a| - 1] + "-";
        KeptConcat(a[..|a| - 1], "-");
      }
    }
  }

  /** Sanitising keeps every letter and digit of the lowercased name, in
      order: only the separators change. */
  lemma SlugKeepsAlphanumerics(name: string)
    ensures Kept(Slug(name)) == Kept(Lower(name))
  {
    KeptTrim(Collapse(Lower(name)));
    KeptCollapse(Lower(name));
  }
}

/**
 * Selection of the icon files: of the directory listing, only the entries whose
 * lower-cased name ends in ".svg" are kept, in listing order.
 */
module IconFilter {

  /** The extension that marks an icon file. */
  const SvgExtension: string := ".svg"

  predicate IsUpper(c: char) { 'A' <= c <= 'Z' }

  /** ASCII lower-casing of one character; every other character is kept. */
  function LowerChar(c: char): (d: char)
    ensures !IsUpper(d)
    ensures IsUpper(c) ==> d != c && d as int - c as int == 'a' as int - 'A' as int
    ensures !IsUpper(c) ==> d == c
  {
    if IsUpper(c) then (c as int - 'A' as int + 'a' as int) as char else c
  }

  /** ASCII lower-casing of a name, character by character. */
  function LowerCase(s: string): (r: string)
    ensures |r| == |s|
    ensures forall i :: 0 <= i < |s| ==> !IsUpper(r[i])
    ensures forall i :: 0 <= i < |s| && IsUpper(s[i]) ==> r[i] as int == s[i] as int + ('a' as int - 'A' as int)
    ensures forall i :: 0 <= i < |s| && !IsUpper(s[i]) ==> r[i] == s[i]
  {
    seq(|s|, i requires 0 <= i < |s| => LowerChar(s[i]))
  }

  predicate EndsWith(s: string, suffix: string)
  {
    |suffix| <= |s| && s[|s| - |suffix|..] == suffix
  }

  /** The test applied to each directory entry. */
  predicate IsSvgName(name: string)
  {
    EndsWith(LowerCase(name), SvgExtension)
  }

  /**
   * The test is case-insensitive and looks at exactly the last four characters:
   * a dot, then s, v and g in either case.
   */
  lemma IsSvgNameByLastFour(name: string)
    ensures IsSvgName(name) <==>
      && |name| >= 4
      && name[|name| - 4] == '.'
      && name[|name| - 3] in "sS"
      && name[|name| - 2] in "vV"
      && name[|name| - 1] in "gG"
  {
  }

  /** The directory listing filtered to icon files, order kept. */
  function SvgFiles(entries: seq<string>): (r: seq<string>)
    ensures |r| <= |entries|
    ensures forall k :: 0 <= k < |r| ==> IsSvgName(r[k])
  {
    if entries == [] then []
    else if IsSvgName(entries[0]) then [entries[0]] + SvgFiles(entries[1..])
    else SvgFiles(entries[1..])
  }

  /** `a` is `b` with some entries removed and the rest in their original order. */
  predicate IsSubsequence(a: seq<string>, b: seq<string>)
    decreases |b|
  {
    if a == [] then true
    else if b == [] then false
    else if a[0] == b[0] then IsSubsequence(a[1..], b[1..])
    else IsSubsequence(a, b[1..])
  }

  /** The kept names appear in the listing in the same relative order. */
  lemma {:induction false} SvgFilesIsSubsequence(entries: seq<string>)
    ensures IsSubsequence(SvgFiles(entries), entries)
  {
    if entries != [] {
      SvgFilesIsSubsequence(entries[1..]);
    }
  }

  /**
   * Exactly the icon names are kept, each as often as the listing holds it:
   * nothing that passes the test is dropped and nothing else is kept.
   */
  lemma {:induction false} SvgFilesKeepsExactly(entries: seq<string>)
    ensures forall x ::
              multiset(SvgFiles(entries))[x] == (if IsSvgName(x) then multiset(entries)[x] else 0)
  {
    if entries != [] {
      SvgFilesKeepsExactly(entries[1..]);
      assert entries == [entries[0]] + entries[1..];
    }
  }

  /** Filtering two listings one after the other is filtering their concatenation. */
  lemma {:induction false} SvgFilesAppend(a: seq<string>, b: seq<string>)
    ensures SvgFiles(a + b) == SvgFiles(a) + SvgFiles(b)
  {
    if a == [] {
      assert a + b == b;
    } else {
      assert (a + b)[1..] == a[1..] + b;
      SvgFilesAppend(a[1..], b);
    }
  }

  /** Filtering an already filtered listing changes nothing. */
  lemma {:induction false} SvgFilesIdempotent(entries: seq<string>)
    ensures SvgFiles(SvgFiles(entries)) == SvgFiles(entries)
  {
    if entries != [] {
      SvgFilesIdempotent(entries[1..]);
      if IsSvgName(entries[0]) {
        var rest := SvgFiles(entries[1..]);
        assert ([entries[0]] + rest)[1..] == rest;
      }
    }
  }

  /** There is nothing to compose exactly when no entry passes the test. */
  lemma {:induction false} SvgFilesEmpty(entries: seq<string>)
    ensures SvgFiles(entries) == [] <==> forall k :: 0 <= k < |entries| ==> !IsSvgName(entries[k])
  {
    if entries != [] {
      SvgFilesEmpty(entries[1..]);
      assert forall k :: 1 <= k < |entries| ==> entries[k] == entries[1..][k - 1];
    }
  }

  /** A listing with a non-icon entry and an upper-case extension. */
  lemma SvgFilesExample()
    ensures SvgFiles(["react.svg", "README.md", "Vue.SVG", "svg"]) == ["react.svg", "Vue.SVG"]
  {
    var l := ["react.svg", "README.md", "Vue.SVG", "svg"];
    IsSvgNameByLastFour(l[0]);
    IsSvgNameByLastFour(l[1]);
    IsSvgNameByLastFour(l[2]);
    IsSvgNameByLastFour(l[3]);
    assert l[1..] == ["README.md", "Vue.SVG", "svg"];
    assert l[1..][1..] == ["Vue.SVG", "svg"];
    assert l[1..][1..][1..] == ["svg"];
  }
}

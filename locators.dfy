/**
 * Locators: the (strategy, value) pairs a UI element is found by, and the
 * XPath union that `located_by_xpaths` builds from a list of fragments.
 */
module Locators {

  /** The lookup strategies of the driver's `By` class. */
  datatype Strategy = Id | XPath | LinkText | PartialLinkText | Name | TagName | ClassName | CssSelector
  {
    /** The string the driver receives for this strategy. */
    function Value(): string {
      match this
      case Id => "id"
      case XPath => "xpath"
      case LinkText => "link text"
      case PartialLinkText => "partial link text"
      case Name => "name"
      case TagName => "tag name"
      case ClassName => "class name"
      case CssSelector => "css selector"
    }
  }

  /** A locator: the pair passed to `find_element(s)` as `*self.locator`. */
  datatype Locator = Locator(strategy: Strategy, value: string)

  /** `sep.join(parts)`. */
  function Join(sep: string, parts: seq<string>): string
    decreases |parts|
  {
    if |parts| == 0 then ""
    else if |parts| == 1 then parts[0]
    else parts[0] + sep + Join(sep, parts[1..])
  }

  /** `"({})".format(x)`. */
  function Parenthesize(x: string): string {
    "(" + x + ")"
  }

  /** The generator `("({})".format(x) for x in xs)`, as a sequence. */
  function ParenthesizeAll(xs: seq<string>): (r: seq<string>)
    ensures |r| == |xs|
    ensures forall k :: 0 <= k < |xs| ==> r[k] == Parenthesize(xs[k])
  {
    seq(|xs|, k requires 0 <= k < |xs| => Parenthesize(xs[k]))
  }

  /** The XPath union `"|".join("({})".format(x) for x in xs)`. */
  function XPathUnion(xs: seq<string>): string {
    Join("|", ParenthesizeAll(xs))
  }

  /** The locator `located_by_xpaths(xs)` sets. */
  function XPathsLocator(xs: seq<string>): (l: Locator)
    ensures l.strategy == XPath
    ensures |xs| == 1 ==> l.value == "(" + xs[0] + ")"
    ensures xs == [] ==> l.value == ""
  {
    Locator(XPath, XPathUnion(xs))
  }

  /** `s.split(c)` for a one-character separator: always at least one part. */
  function Split(c: char, s: string): (parts: seq<string>)
    ensures |parts| >= 1
    decreases |s|
  {
    if |s| == 0 then [""]
    else
      var rest := Split(c, s[1..]);
      if s[0] == c then [""] + rest else [[s[0]] + rest[0]] + rest[1..]
  }

  /** Joining two non-empty lists of parts puts one separator between the two joins. */
  lemma {:induction false} JoinAppend(sep: string, a: seq<string>, b: seq<string>)
    requires |a| >= 1 && |b| >= 1
    ensures Join(sep, a + b) == Join(sep, a) + sep + Join(sep, b)
    decreases |a|
  {
    if |a| == 1 {
      assert (a + b)[1..] == b;
    } else {
      assert (a + b)[1..] == a[1..] + b;
      JoinAppend(sep, a[1..], b);
    }
  }

  /** Adding one fragment to a non-empty union appends `|(x)` to it. */
  lemma XPathUnionAppend(xs: seq<string>, x: string)
    requires |xs| >= 1
    ensures XPathUnion(xs + [x]) == XPathUnion(xs) + "|" + Parenthesize(x)
  {
    assert ParenthesizeAll(xs + [x]) == ParenthesizeAll(xs) + [Parenthesize(x)];
    JoinAppend("|", ParenthesizeAll(xs), [Parenthesize(x)]);
  }

  /** A string without the separator splits into itself. */
  lemma {:induction false} SplitWithoutSeparator(c: char, s: string)
    requires c !in s
    ensures Split(c, s) == [s]
    decreases |s|
  {
    if |s| > 0 {
      assert c !in s[1..] by {
        forall k | 0 <= k < |s[1..]| ensures s[1..][k] != c { assert s[1..][k] == s[k + 1]; }
      }
      SplitWithoutSeparator(c, s[1..]);
      assert [s[0]] + s[1..] == s;
    }
  }

  /** Splitting at the first separator: the part before it, then the split of the rest. */
  lemma {:induction false} SplitAtFirst(c: char, a: string, b: string)
    requires c !in a
    ensures Split(c, a + [c] + b) == [a] + Split(c, b)
    decreases |a|
  {
    if |a| == 0 {
      assert a + [c] + b == [c] + b;
      assert ([c] + b)[1..] == b;
    } else {
      var s := a + [c] + b;
      assert s[0] == a[0];
      assert s[1..] == a[1..] + [c] + b;
      assert c !in a[1..] by {
        forall k | 0 <= k < |a[1..]| ensures a[1..][k] != c { assert a[1..][k] == a[k + 1]; }
      }
      SplitAtFirst(c, a[1..], b);
      assert [a[0]] + a[1..] == a;
    }
  }

  /** Split undoes Join when no part contains the separator. */
  lemma {:induction false} SplitJoin(c: char, parts: seq<string>)
    requires |parts| >= 1
    requires forall k :: 0 <= k < |parts| ==> c !in parts[k]
    ensures Split(c, Join([c], parts)) == parts
    decreases |parts|
  {
    if |parts| == 1 {
      SplitWithoutSeparator(c, parts[0]);
    } else {
      SplitJoin(c, parts[1..]);
      SplitAtFirst(c, parts[0], Join([c], parts[1..]));
      assert [parts[0]] + parts[1..] == parts;
    }
  }

  /**
   * Round trip of the XPath union: for a non-empty list of fragments, none
   * containing `|`, splitting the union at `|` gives back the parenthesised
   * fragments, in order. (The empty list joins to "", which splits to [""].)
   */
  lemma XPathUnionRoundTrip(xs: seq<string>)
    requires |xs| >= 1
    requires forall k :: 0 <= k < |xs| ==> '|' !in xs[k]
    ensures Split('|', XPathUnion(xs)) == ParenthesizeAll(xs)
  {
    var ps := ParenthesizeAll(xs);
    forall k | 0 <= k < |ps| ensures '|' !in ps[k] {
      assert ps[k] == "(" + xs[k] + ")";
    }
    SplitJoin('|', ps);
  }
}

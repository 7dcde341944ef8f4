/**
 * UIElement: a lazily resolved, possibly parented description of a page
 * element. Construction reads the parent-scope stack; `locate` walks the
 * parent chain and looks the element up inside its resolved parent;
 * `locate_multiple` expands the matches into indexed copies; the builders
 * set one field each and return the element itself.
 */
module Element {
  import opened Locators
  import opened Driver
  import Interaction
  import Scoping

  /**
   * The class an element is an instance of (`self.__class__`): its qualified name and
   * the class attributes `_toplevel` and `_locator` a subclass may override.
   */
  datatype Variant = Variant(name: string, toplevel: bool, defaultLocator: Option<Locator>)

  /** The base class UIElement itself, under its module path as `str(cls)` prints it. */
  const Base := Variant("framework.components.element.UIElement", false, None)

  /** The process-wide `UIElement._parents_stack`, passed explicitly. */
  class ParentStack {
    var items: seq<UIElement>

    constructor ()
      ensures items == []
    {
      items := [];
    }
  }

  /** The parent `__init__` picks: the top of the stack, unless the stack is empty or the element is top-level. */
  function ConstructionParent(items: seq<UIElement>, cls: Variant, toplevel: bool): (p: UIElement?)
    ensures p != null <==> |items| > 0 && !cls.toplevel && !toplevel
    ensures p != null ==> p == items[|items| - 1]
  {
    if |items| > 0 && !(cls.toplevel || toplevel) then items[|items| - 1] else null
  }

  /** `str(locator)`, without Python's escaping of quotes inside the value. */
  function RenderLocator(l: Option<Locator>): string {
    match l
    case None => "None"
    case Some(Locator(s, v)) => "('" + s.Value() + "', '" + v + "')"
  }

  class UIElement {
    const cls: Variant
    var parent: UIElement?
    var locator: Option<Locator>
    var index: Option<int>
    /** The element and its ancestors. */
    ghost var Repr: set<UIElement>

    /** The parent chain is finite and acyclic, and Repr is exactly the chain. */
    ghost predicate Valid()
      reads this, Repr
      decreases Repr
    {
      this in Repr &&
      (parent == null ==> Repr == {this}) &&
      (parent != null ==>
        parent in Repr && this !in parent.Repr && Repr == {this} + parent.Repr && parent.Valid())
    }

    /** `__init__(toplevel)` of an instance of `cls`. */
    constructor (cls: Variant, toplevel: bool, scopes: ParentStack)
      ensures this.cls == cls
      ensures parent == ConstructionParent(scopes.items, cls, toplevel)
      ensures locator == cls.defaultLocator && index == None
      ensures parent == null || parent.Valid() ==> Valid()
    {
      this.cls := cls;
      var p := ConstructionParent(scopes.items, cls, toplevel);
      parent := p;
      locator := cls.defaultLocator;
      index := None;
      Repr := if p == null then {this} else {this} + p.Repr;
    }

    /** `__str__`: the class and the locator. */
    function Describe(): string
      reads this
    {
      "<class '" + cls.name + "'> located by " + RenderLocator(locator)
    }

    /** The element and its ancestors, from itself up to the top-level one. */
    function Ancestry(): (a: seq<UIElement>)
      requires Valid()
      reads Repr
      ensures |a| >= 1 && a[0] == this
      ensures forall k :: 0 <= k < |a| ==> a[k] in Repr && a[k].Valid()
      ensures a[|a| - 1].parent == null
      decreases Repr
    {
      if parent == null then [this] else [this] + parent.Ancestry()
    }

    /**
     * The scope this element is looked up in: the whole page without a
     * parent, otherwise inside the node the parent resolves to.
     */
    function ScopeIn(dom: Dom): (r: Result<Scope>)
      requires Valid()
      reads Repr
      ensures parent == null ==> r == Ok(Document)
      ensures parent != null && r.Ok? ==> parent.Locate(dom).Ok? && r.value == Within(parent.Locate(dom).value)
      ensures parent != null && r.Err? ==> parent.Locate(dom).Err? && r == Err(parent.Locate(dom).error)
      decreases Repr, 0
    {
      if parent == null then Ok(Document)
      else
        match parent.Locate(dom)
        case Ok(p) => Ok(Within(p))
        case Err(e) => Err(e)
    }

    /** `locate()`. */
    function Locate(dom: Dom): (r: Result<NodeId>)
      requires Valid()
      reads Repr
      // no locator: NotImplementedError, before the parent is resolved
      ensures locator.None? ==> r == Err(NotImplemented)
      // a resolved node is one of the current matches in the element's own scope
      ensures r.Ok? ==> locator.Some? && ScopeIn(dom).Ok? &&
                        FindAll(dom, ScopeIn(dom).value, locator.value).Ok? &&
                        r.value in FindAll(dom, ScopeIn(dom).value, locator.value).value
      // with a parent, the lookup happens inside the parent's node
      ensures r.Ok? && parent != null ==> ScopeIn(dom).value.Within?
      // a failure of the parent's resolution comes back unchanged
      ensures locator.Some? && parent != null && parent.Locate(dom).Err? ==> r == parent.Locate(dom)
      // under a parent, a NoSuchElement can only come from the parent's own resolution
      ensures parent != null && r.Err? && r.error.NoSuchElement? ==> r == parent.Locate(dom)
      decreases Repr, 1
    {
      if locator.None? then Err(NotImplemented)
      else
        match ScopeIn(dom)
        case Err(e) => Err(e)
        case Ok(scope) =>
          var found := Select(dom, scope, locator.value, index);
          if parent == null then found else Rewrap(found, parent.Describe())
    }

    /** `visible`: whether the element resolves and is displayed; every failure reads as false. */
    function Visible(dom: Dom, isDisplayed: (Dom, NodeId) -> Result<bool>): (v: bool)
      requires Valid()
      reads Repr
      // true exactly when the element resolves and the driver reports it displayed
      ensures v <==> Locate(dom).Ok? && isDisplayed(dom, Locate(dom).value) == Ok(true)
      // a resolution failure, or a failure of `is_displayed` itself, reads as false
      ensures Locate(dom).Err? ==> !v
      ensures Locate(dom).Ok? && isDisplayed(dom, Locate(dom).value).Err? ==> !v
    {
      match Locate(dom)
      case Err(_) => false
      case Ok(n) => isDisplayed(dom, n) == Ok(true)
    }

    /** The `find_elements` result of `locate_multiple`, in the element's own scope. */
    function AllMatches(dom: Dom): (r: Result<seq<NodeId>>)
      requires Valid()
      reads Repr
      ensures locator.None? ==> r == Err(NotImplemented)
      ensures locator.Some? && ScopeIn(dom).Ok? ==> r == FindAll(dom, ScopeIn(dom).value, locator.value)
      ensures locator.Some? && ScopeIn(dom).Err? ==> r == Err(ScopeIn(dom).error)
    {
      if locator.None? then Err(NotImplemented)
      else
        match ScopeIn(dom)
        case Err(e) => Err(e)
        case Ok(scope) => FindAll(dom, scope, locator.value)
    }

    /** `_set_index(i)`. */
    method SetIndex(i: Option<int>) returns (r: UIElement)
      modifies this
      ensures r == this && index == i
      ensures parent == old(parent) && locator == old(locator) && Repr == old(Repr)
      ensures old(Valid()) ==> Valid()
    {
      index := i;
      r := this;
    }

    /** `located_by(locator)`. */
    method LocatedBy(l: Option<Locator>) returns (r: UIElement)
      modifies this
      ensures r == this && locator == l
      ensures parent == old(parent) && index == old(index) && Repr == old(Repr)
      ensures old(Valid()) ==> Valid()
    {
      locator := l;
      r := this;
    }

    /** `located_by_xpaths(xpaths)`: the parenthesised fragments joined with `|`. */
    method LocatedByXPaths(xpaths: seq<string>) returns (r: UIElement)
      modifies this
      ensures r == this && locator == Some(Locator(XPath, XPathUnion(xpaths)))
      ensures parent == old(parent) && index == old(index) && Repr == old(Repr)
      ensures old(Valid()) ==> Valid()
    {
      r := LocatedBy(Some(XPathsLocator(xpaths)));
    }

    /** `located_by_xpath(xpath)`. */
    method LocatedByXPath(xpath: string) returns (r: UIElement)
      modifies this
      ensures r == this && locator == Some(Locator(XPath, xpath))
      ensures parent == old(parent) && index == old(index) && Repr == old(Repr)
      ensures old(Valid()) ==> Valid()
    {
      r := LocatedBy(Some(Locator(XPath, xpath)));
    }

    /** `located_by_css_selector(css_selector)`. */
    method LocatedByCssSelector(selector: string) returns (r: UIElement)
      modifies this
      ensures r == this && locator == Some(Locator(CssSelector, selector))
      ensures parent == old(parent) && index == old(index) && Repr == old(Repr)
      ensures old(Valid()) ==> Valid()
    {
      r := LocatedBy(Some(Locator(CssSelector, selector)));
    }

    /** `located_by_id(id)`. */
    method LocatedById(id: string) returns (r: UIElement)
      modifies this
      ensures r == this && locator == Some(Locator(Id, id))
      ensures parent == old(parent) && index == old(index) && Repr == old(Repr)
      ensures old(Valid()) ==> Valid()
    {
      r := LocatedBy(Some(Locator(Id, id)));
    }

    /** `located_by_link_text(link_text)`. */
    method LocatedByLinkText(text: string) returns (r: UIElement)
      modifies this
      ensures r == this && locator == Some(Locator(LinkText, text))
      ensures parent == old(parent) && index == old(index) && Repr == old(Repr)
      ensures old(Valid()) ==> Valid()
    {
      r := LocatedBy(Some(Locator(LinkText, text)));
    }

    /** `located_by_partial_link_text(partial_link_text)`. */
    method LocatedByPartialLinkText(text: string) returns (r: UIElement)
      modifies this
      ensures r == this && locator == Some(Locator(PartialLinkText, text))
      ensures parent == old(parent) && index == old(index) && Repr == old(Repr)
      ensures old(Valid()) ==> Valid()
    {
      r := LocatedBy(Some(Locator(PartialLinkText, text)));
    }

    /**
     * `with_parent(parent)`. The chain stays valid when the new parent's is
     * and does not pass through this element.
     */
    method WithParent(p: UIElement?) returns (r: UIElement)
      modifies this
      ensures r == this && parent == p
      ensures locator == old(locator) && index == old(index)
      ensures p == null || (p.Valid() && this !in p.Repr) ==> Valid()
    {
      parent := p;
      Repr := if p == null then {this} else {this} + p.Repr;
      r := this;
    }

    /**
     * Re-establishes the footprint of an element whose ancestor was given a
     * new parent: `with_parent` updates only the element it is called on, so
     * a descendant built earlier still resolves through the new chain (by
     * aliasing), but its own Repr must be recomputed, nearest first.
     */
    ghost method Resync()
      modifies this
      requires parent != null ==> parent.Valid() && this !in parent.Repr
      ensures parent == old(parent) && locator == old(locator) && index == old(index)
      ensures Valid()
    {
      Repr := if parent == null then {this} else {this} + parent.Repr;
    }

    /** `subelement(_class)`: a new element of `_class` (UIElement by default) whose parent is this one. */
    method Subelement(variant: Option<Variant>, scopes: ParentStack) returns (obj: UIElement)
      ensures fresh(obj)
      ensures obj.cls == (if variant.Some? then variant.value else Base)
      ensures obj.parent == this
      ensures obj.locator == obj.cls.defaultLocator && obj.index == None
      ensures Valid() ==> obj.Valid()
    {
      var c := if variant.Some? then variant.value else Base;
      obj := new UIElement(c, false, scopes);
      obj.parent := this;
      obj.Repr := {obj} + Repr;
    }

    /** `__enter__`: push this element on the stack and return it. */
    method Enter(scopes: ParentStack) returns (r: UIElement)
      modifies scopes
      ensures r == this
      ensures scopes.items == old(scopes.items) + [this]
      // the same step as an enter event replayed on the stack
      ensures Scoping.Apply(old(scopes.items), Scoping.Enter(this)) == Some(scopes.items)
    {
      scopes.items := scopes.items + [this];
      r := this;
    }

    /** `__exit__`: pop the top of the stack; popping an empty stack is an IndexError. */
    method Exit(scopes: ParentStack) returns (raised: Option<Error>)
      modifies scopes
      ensures raised == (if old(scopes.items) == [] then Some(IndexOutOfRange) else None)
      ensures raised.None? ==> scopes.items == old(scopes.items)[..|old(scopes.items)| - 1]
      ensures raised.Some? ==> scopes.items == old(scopes.items)
      // the same step as an exit event replayed on the stack, which fails exactly when this raises
      ensures Scoping.Apply(old(scopes.items), Scoping.Exit) == (if raised.Some? then None else Some(scopes.items))
    {
      if |scopes.items| == 0 {
        raised := Some(IndexOutOfRange);
      } else {
        scopes.items := scopes.items[..|scopes.items| - 1];
        raised := None;
      }
    }

    /**
     * `locate_multiple()`: one new element per current match, with this
     * element's class and locator and the match's position as index. With a
     * parent the copies get that parent explicitly; without one, a copy's
     * parent is whatever its constructor picks from the stack.
     */
    method LocateMultiple(dom: Dom, scopes: ParentStack) returns (r: Result<seq<UIElement>>)
      requires Valid()
      ensures r.Err? <==> AllMatches(dom).Err?
      ensures r.Err? ==> r.error == AllMatches(dom).error
      ensures r.Ok? ==> |r.value| == |AllMatches(dom).value|
      ensures r.Ok? ==> forall k :: 0 <= k < |r.value| ==>
                fresh(r.value[k]) &&
                (r.value[k].parent == null || r.value[k].parent.Valid() ==> r.value[k].Valid()) &&
                r.value[k].cls == cls && r.value[k].locator == locator && r.value[k].index == Some(k) &&
                r.value[k].parent == (if parent != null then parent else ConstructionParent(scopes.items, cls, false))
      ensures r.Ok? ==> forall j, k :: 0 <= j < k < |r.value| ==> r.value[j] != r.value[k]
      // a copy that kept this element's parent resolves to the match at its position
      ensures r.Ok? ==> forall k :: 0 <= k < |r.value| && r.value[k].parent == parent && r.value[k].Valid() ==>
                r.value[k].Locate(dom) == Ok(AllMatches(dom).value[k])
    {
      var matches := AllMatches(dom);
      if matches.Err? {
        return Err(matches.error);
      }
      var ids := matches.value;
      var list: seq<UIElement> := [];
      var k := 0;
      while k < |ids|
        invariant 0 <= k <= |ids| && |list| == k
        invariant forall j :: 0 <= j < k ==>
                    fresh(list[j]) &&
                    (list[j].parent == null || list[j].parent.Valid() ==> list[j].Valid()) &&
                    list[j].cls == cls && list[j].locator == locator && list[j].index == Some(j) &&
                    list[j].parent == (if parent != null then parent else ConstructionParent(scopes.items, cls, false))
        invariant forall i, j :: 0 <= i < j < k ==> list[i] != list[j]
      {
        // self.__class__().located_by(self.locator)[.with_parent(self.parent_ui_element)]._set_index(i)
        var copy := new UIElement(cls, false, scopes);
        copy := copy.LocatedBy(locator);
        if parent != null {
          copy := copy.WithParent(parent);
        }
        copy := copy.SetIndex(Some(k));
        list := list + [copy];
        k := k + 1;
      }
      forall k | 0 <= k < |list| && list[k].parent == parent && list[k].Valid()
        ensures list[k].Locate(dom) == Ok(ids[k])
      {
        CopyResolvesToPosition(this, list[k], k, dom);
      }
      r := Ok(list);
    }

    /** One resolve-and-act attempt, on the page as it is at that attempt. */
    function Attempt<T>(dom: Dom, act: (Dom, NodeId) -> Result<T>): (o: Result<T>)
      requires Valid()
      reads Repr
      ensures Locate(dom).Err? ==> o == Err(Locate(dom).error)
      ensures Locate(dom).Ok? ==> o == act(dom, Locate(dom).value)
    {
      match Locate(dom)
      case Err(e) => Err(e)
      case Ok(n) => act(dom, n)
    }

    /** The outcomes of the three attempts the retry wrapper may make, attempt `k` on page `doms(k)`. */
    function Outcomes<T>(doms: nat -> Dom, act: (Dom, NodeId) -> Result<T>): (s: Interaction.Script<T>)
      requires Valid()
      reads Repr
      ensures forall k :: 0 <= k < Interaction.MaxAttempts ==> s[k] == Attempt(doms(k), act)
    {
      [Attempt(doms(0), act), Attempt(doms(1), act), Attempt(doms(2), act)]
    }

    /**
     * `gui_interaction(lambda: act(self.locate()), message)`: every attempt
     * resolves the element afresh, on the page of that attempt.
     */
    method Interact<T>(doms: nat -> Dom, act: (Dom, NodeId) -> Result<T>, message: string)
      returns (r: Result<T>, trace: seq<Interaction.Event>)
      requires Valid()
      ensures r == Interaction.RetryResult(Outcomes(doms, act), 0)
      ensures trace == [Interaction.WaitDomLoaded, Interaction.WaitNoLoaders] + Interaction.RetryTrace(Outcomes(doms, act), message, 0)
      // an unconfigured element fails at once with NotImplementedError, and is not retried
      ensures locator.None? ==>
                (r == Err(NotImplemented) &&
                 trace == [Interaction.WaitDomLoaded, Interaction.WaitNoLoaders, Interaction.Call(0)])
    {
      r, trace := Interaction.GuiInteraction(Outcomes(doms, act), message);
    }

    /** `click()`: `click` is the driver's click on the resolved node; warnings name the element. */
    method Click(doms: nat -> Dom, click: (Dom, NodeId) -> Result<()>)
      returns (r: Result<()>, trace: seq<Interaction.Event>)
      requires Valid()
      ensures r == Interaction.RetryResult(Outcomes(doms, click), 0)
      ensures trace == [Interaction.WaitDomLoaded, Interaction.WaitNoLoaders] +
                       Interaction.RetryTrace(Outcomes(doms, click), "Click on " + Describe(), 0)
      // at most three clicks, and a sleep only before a retry
      ensures Interaction.Count(trace, Interaction.IsCall) == Interaction.Calls(Outcomes(doms, click)) <= Interaction.MaxAttempts
      ensures Interaction.Count(trace, Interaction.IsSleep) == Interaction.Calls(Outcomes(doms, click)) - 1
      ensures |trace| >= 3 && trace[..3] == [Interaction.WaitDomLoaded, Interaction.WaitNoLoaders, Interaction.Call(0)]
      ensures forall j :: 0 <= j < |trace| && trace[j].Warn? ==>
                "Click on " + Describe() + " failed\n" <= trace[j].text
    {
      r, trace := Interact(doms, click, "Click on " + Describe());
      Interaction.TraceShape(Outcomes(doms, click), "Click on " + Describe(), 0);
      Interaction.RetryTraceCounts(Outcomes(doms, click), "Click on " + Describe());
      Interaction.CountAppend([Interaction.WaitDomLoaded, Interaction.WaitNoLoaders],
                              Interaction.RetryTrace(Outcomes(doms, click), "Click on " + Describe(), 0), Interaction.IsCall);
      Interaction.CountAppend([Interaction.WaitDomLoaded, Interaction.WaitNoLoaders],
                              Interaction.RetryTrace(Outcomes(doms, click), "Click on " + Describe(), 0), Interaction.IsSleep);
    }
  }

  /**
   * An element with the same parent and locator as `e` and index `k`
   * resolves to match `k` of `e`'s lookup, a negative `k` counting from the
   * end; copies made by `locate_multiple` that kept the parent are such
   * elements.
   */
  lemma CopyResolvesToPosition(e: UIElement, copy: UIElement, k: int, dom: Dom)
    requires e.Valid() && copy.Valid()
    requires copy.parent == e.parent && copy.locator == e.locator && copy.index == Some(k)
    requires e.AllMatches(dom).Ok? && -|e.AllMatches(dom).value| <= k < |e.AllMatches(dom).value|
    ensures copy.Locate(dom) == Ok(e.AllMatches(dom).value[if k < 0 then |e.AllMatches(dom).value| + k else k])
  {
    assert copy.ScopeIn(dom) == e.ScopeIn(dom);
  }

  /**
   * `str(e)` names the class first, as `str(self.__class__)` renders it, and
   * ends with " located by " and the rendered locator.
   */
  lemma DescribeNamesClassAndLocator(e: UIElement)
    ensures "<class '" + e.cls.name + "'>" <= e.Describe()
    ensures var s, l := e.Describe(), RenderLocator(e.locator);
            |s| >= |l| + 12 && s[|s| - |l|..] == l && s[|s| - |l| - 12..|s| - |l|] == " located by "
  {
    var c, l := "<class '" + e.cls.name + "'>", RenderLocator(e.locator);
    assert e.Describe() == c + (" located by " + l);
    assert |" located by "| == 12;
  }

  /**
   * A truthy index outside the current matches is an IndexError, with or
   * without a parent: it is neither rewrapped nor a driver exception.
   */
  lemma IndexOutOfRangeRaised(e: UIElement, dom: Dom)
    requires e.Valid() && e.locator.Some? && IsTruthy(e.index)
    requires e.AllMatches(dom).Ok?
    requires !(-|e.AllMatches(dom).value| <= e.index.value < |e.AllMatches(dom).value|)
    ensures e.Locate(dom) == Err(IndexOutOfRange)
    ensures !e.Locate(dom).error.IsWebDriverException()
  {
  }

  /** Resolution fails with NotImplementedError exactly when some element of the chain has no locator. */
  lemma {:induction false} NotImplementedIffUnconfigured(e: UIElement, dom: Dom)
    requires e.Valid()
    ensures e.Locate(dom) == Err(NotImplemented) <==>
            exists a :: a in e.Ancestry() && a.locator.None?
    decreases e.Repr
  {
    if e.locator.Some? && e.parent != null {
      NotImplementedIffUnconfigured(e.parent, dom);
      assert e.Ancestry() == [e] + e.parent.Ancestry();
    } else if e.locator.Some? {
      assert e.Ancestry() == [e];
    }
  }

  /**
   * A NoSuchElement only escapes `locate` from the top-level ancestor: under
   * a resolved parent it is turned into a WebDriverException with a hint.
   */
  lemma {:induction false} NoSuchElementOnlyFromTop(e: UIElement, dom: Dom)
    requires e.Valid()
    requires e.Locate(dom).Err? && e.Locate(dom).error.NoSuchElement?
    ensures var top := e.Ancestry()[|e.Ancestry()| - 1];
            top.Locate(dom) == e.Locate(dom)
    decreases e.Repr
  {
    if e.parent != null {
      NoSuchElementOnlyFromTop(e.parent, dom);
      assert e.Ancestry() == [e] + e.parent.Ancestry();
    }
  }

  /**
   * Under a resolved parent a failed lookup is a plain WebDriverException:
   * a NoSuchElement gets the hint naming the parent, any other driver
   * exception keeps its message, and a bad index stays an IndexError.
   */
  lemma LookupFailureUnderParent(e: UIElement, dom: Dom, p: NodeId)
    requires e.Valid() && e.parent != null && e.locator.Some?
    requires e.parent.Locate(dom) == Ok(p)
    ensures var raw := Select(dom, Within(p), e.locator.value, e.index);
            raw.Err? && raw.error.NoSuchElement? ==>
              e.Locate(dom) == Err(WebDriver(raw.error.msg + ParentHint(e.parent.Describe())))
    ensures var raw := Select(dom, Within(p), e.locator.value, e.index);
            raw.Err? && !raw.error.NoSuchElement? ==> e.Locate(dom) == raw
    ensures !IsTruthy(e.index) && dom.find(Within(p), e.locator.value) == Matches([]) ==>
              e.Locate(dom) == Err(WebDriver(dom.noMatchMessage(Within(p), e.locator.value) + ParentHint(e.parent.Describe())))
  {
  }

  /**
   * An untruthy index (None or 0) resolves through the single-result lookup:
   * the first match of the element's scope.
   */
  lemma IndexZeroLikeNone(e: UIElement, dom: Dom)
    requires e.Valid() && !IsTruthy(e.index) && e.locator.Some? && e.ScopeIn(dom).Ok?
    ensures e.parent == null ==> e.Locate(dom) == FindFirst(dom, Document, e.locator.value)
    ensures e.parent != null ==>
              e.Locate(dom) == Rewrap(FindFirst(dom, e.ScopeIn(dom).value, e.locator.value), e.parent.Describe())
  {
  }

  /**
   * A resolution that fails with a driver exception on the first attempt's
   * page and succeeds on the second's is retried and resolved afresh: the
   * wrapper returns the action on the second page's node, after one warning
   * and one sleep.
   */
  lemma StaleResolutionRetried<T>(e: UIElement, doms: nat -> Dom, act: (Dom, NodeId) -> Result<T>, message: string)
    requires e.Valid()
    requires e.Locate(doms(0)).Err? && e.Locate(doms(0)).error.IsWebDriverException()
    requires e.Locate(doms(1)).Ok? && !Interaction.IsDriverFailure(act(doms(1), e.Locate(doms(1)).value))
    ensures Interaction.RetryResult(e.Outcomes(doms, act), 0) == act(doms(1), e.Locate(doms(1)).value)
    ensures Interaction.RetryTrace(e.Outcomes(doms, act), message, 0) ==
            [Interaction.Call(0), Interaction.Warn(Interaction.WarnText(message, e.Locate(doms(0)).error.msg)),
             Interaction.Sleep, Interaction.Call(1)]
  {
  }

  /**
   * `p.with_parent(q)` after `c` was built under `p`: `c` keeps `p` as its
   * parent and, once its footprint is re-established, resolves through the
   * new chain c→p→q.
   */
  method ReparentAncestor(c: UIElement, p: UIElement, q: UIElement)
    requires c.Valid() && c.parent == p && q.Valid() && p !in q.Repr && c !in q.Repr
    modifies p, c
    ensures c.parent == p && p.parent == q
    ensures p.Valid() && c.Valid()
    ensures c.Ancestry() == [c, p] + q.Ancestry()
  {
    var same := p.WithParent(q);
    c.Resync();
  }

  /**
   * `with e:` around the construction of an element: the new element's
   * parent is `e` unless it is top-level, and the stack and `e` are left as
   * they were.
   */
  method DeclareInScope(e: UIElement, scopes: ParentStack, cls: Variant, toplevel: bool) returns (child: UIElement)
    modifies scopes
    ensures fresh(child)
    ensures child.parent == (if cls.toplevel || toplevel then null else e)
    ensures scopes.items == old(scopes.items)
    ensures unchanged(e)
    ensures e.Valid() ==> child.Valid()
  {
    var inner := e.Enter(scopes);
    child := new UIElement(cls, toplevel, scopes);
    var raised := inner.Exit(scopes);
    assert (old(scopes.items) + [e])[..|old(scopes.items)|] == old(scopes.items);
  }
}

/**
 * The abstract browser: the only capability the resolution core uses is
 * "find the matches of a locator inside a scope", either all of them
 * (`find_elements`) or the first one (`find_element`). The errors the core
 * raises or lets through are modelled as values.
 */
module Driver {
  import opened Locators

  datatype Option<T> = None | Some(value: T)

  /** A live element of the page, as the driver hands it out. */
  type NodeId = nat

  /** Where a locator is evaluated: the whole page, or inside one resolved element. */
  datatype Scope = Document | Within(node: NodeId)

  /**
   * What the driver does with one lookup: return the matches in document
   * order, or raise a driver exception (a NoSuchElementException when
   * `noSuchElement` holds, another WebDriverException otherwise).
   */
  datatype Lookup = Matches(ids: seq<NodeId>) | Raises(noSuchElement: bool, msg: string)

  /**
   * A snapshot of the page: the result of every lookup, and the message the
   * driver puts in the NoSuchElementException of a `find_element` that
   * matches nothing.
   */
  datatype Dom = Dom(find: (Scope, Locator) -> Lookup, noMatchMessage: (Scope, Locator) -> string)

  /** The exceptions that cross the resolution core. */
  datatype Error =
    | NotImplemented              // NotImplementedError: no locator configured
    | IndexOutOfRange             // IndexError from `find_elements(...)[i]`
    | NoSuchElement(msg: string)  // selenium NoSuchElementException
    | WebDriver(msg: string)      // any other WebDriverException
    | Other(name: string)         // any other exception the action raises (ValueError, ...)
  {
    /** NoSuchElementException is a subclass of WebDriverException. */
    predicate IsWebDriverException() {
      NoSuchElement? || WebDriver?
    }
  }

  datatype Result<T> = Ok(value: T) | Err(error: Error)

  /** The exception of a lookup that raised. */
  function Raised(l: Lookup): (e: Error)
    requires l.Raises?
    ensures e.IsWebDriverException() && e.msg == l.msg
    ensures e.NoSuchElement? <==> l.noSuchElement
  {
    if l.noSuchElement then NoSuchElement(l.msg) else WebDriver(l.msg)
  }

  /** `scope.find_elements(*locator)`. */
  function FindAll(dom: Dom, scope: Scope, loc: Locator): Result<seq<NodeId>> {
    match dom.find(scope, loc)
    case Matches(ids) => Ok(ids)
    case Raises(_, _) => Err(Raised(dom.find(scope, loc)))
  }

  /** `scope.find_element(*locator)`: the first match, or NoSuchElement when there is none. */
  function FindFirst(dom: Dom, scope: Scope, loc: Locator): (r: Result<NodeId>)
    ensures r.Ok? <==> FindAll(dom, scope, loc).Ok? && |FindAll(dom, scope, loc).value| > 0
    ensures r.Ok? ==> r.value == FindAll(dom, scope, loc).value[0]
    ensures FindAll(dom, scope, loc) == Ok([]) ==> r == Err(NoSuchElement(dom.noMatchMessage(scope, loc)))
    ensures FindAll(dom, scope, loc).Err? ==> r == Err(FindAll(dom, scope, loc).error)
  {
    match dom.find(scope, loc)
    case Matches(ids) =>
      if |ids| == 0 then Err(NoSuchElement(dom.noMatchMessage(scope, loc))) else Ok(ids[0])
    case Raises(_, _) => Err(Raised(dom.find(scope, loc)))
  }

  /** Python truthiness of `self.i`: None and 0 are false. */
  predicate IsTruthy(i: Option<int>) {
    i.Some? && i.value != 0
  }

  /** Python's `ids[i]`, negative indices counting from the end. */
  function PyIndex(ids: seq<NodeId>, i: int): (r: Result<NodeId>)
    ensures r.Ok? <==> -|ids| <= i < |ids|
    ensures 0 <= i < |ids| ==> r == Ok(ids[i])
    ensures -|ids| <= i < 0 ==> r == Ok(ids[|ids| + i])
    ensures r.Err? ==> r.error == IndexOutOfRange
  {
    if 0 <= i < |ids| then Ok(ids[i])
    else if -|ids| <= i < 0 then Ok(ids[|ids| + i])
    else Err(IndexOutOfRange)
  }

  /**
   * The lookup `locate` performs once its scope is known: with a truthy
   * index, entry `i` of `find_elements`; otherwise `find_element`.
   */
  function Select(dom: Dom, scope: Scope, loc: Locator, index: Option<int>): (r: Result<NodeId>)
    // index None and index 0 both take the single-result path
    ensures !IsTruthy(index) ==> r == FindFirst(dom, scope, loc)
    // a position among the current matches selects that match, 0 included
    ensures index.Some? && FindAll(dom, scope, loc).Ok? && 0 <= index.value < |FindAll(dom, scope, loc).value| ==>
              r == Ok(FindAll(dom, scope, loc).value[index.value])
    // a truthy index outside the matches is an IndexError, not a driver exception
    ensures IsTruthy(index) && FindAll(dom, scope, loc).Ok? ==>
              (r == Err(IndexOutOfRange) <==> !(-|FindAll(dom, scope, loc).value| <= index.value < |FindAll(dom, scope, loc).value|))
    // an empty result under no index is a NoSuchElement
    ensures !IsTruthy(index) && FindAll(dom, scope, loc) == Ok([]) ==>
              r == Err(NoSuchElement(dom.noMatchMessage(scope, loc)))
    // whatever comes back is one of the current matches
    ensures r.Ok? ==> FindAll(dom, scope, loc).Ok? && r.value in FindAll(dom, scope, loc).value
    // a driver exception of the lookup comes back as it is
    ensures FindAll(dom, scope, loc).Err? ==> r == Err(FindAll(dom, scope, loc).error)
  {
    if IsTruthy(index) then
      match FindAll(dom, scope, loc)
      case Ok(ids) => PyIndex(ids, index.value)
      case Err(e) => Err(e)
    else
      FindFirst(dom, scope, loc)
  }

  /** The text `locate` adds to a NoSuchElementException raised under a parent. */
  function ParentHint(parentDescription: string): string {
    "\n\nEnsure that " + parentDescription + "\n\nis a valid parent for the element"
  }

  /**
   * The `except WebDriverException` clause of `locate` under a parent: a
   * driver exception becomes a plain WebDriverException, carrying the parent
   * hint when it was a NoSuchElementException; anything else passes.
   */
  function Rewrap<T>(r: Result<T>, parentDescription: string): (w: Result<T>)
    ensures r.Ok? ==> w == r
    ensures r.Err? && r.error.NoSuchElement? ==> w == Err(WebDriver(r.error.msg + ParentHint(parentDescription)))
    ensures r.Err? && !r.error.NoSuchElement? ==> w == r
    ensures w.Err? ==> !w.error.NoSuchElement?
  {
    match r
    case Err(NoSuchElement(m)) => Err(WebDriver(m + ParentHint(parentDescription)))
    case _ => r
  }
}

# UIElement resolution core, modelled in Dafny

This project models the page-object core of a browser-automation layer for
UI end-to-end tests (`element.py`). A `UIElement` is a lazily resolved
description of a page element: a locator (strategy and value), an optional
parent element and an optional index. Each time it is used it is resolved
afresh, by walking up the parent chain and looking the element up inside the
node its parent resolves to. `with element:` blocks push the element on a
process-wide parent-scope stack, and elements built inside the block take it
as their parent. `locate_multiple` expands the current matches into indexed
copies. Every interaction goes through `gui_interaction`, which waits for the
page once and then tries the action up to three times.

The browser is replaced by an abstract page (`Driver.Dom`). It maps a scope
(the whole page, or one resolved node) and a locator to the matches in
document order, or to a driver exception. `find_element` is the first of
those matches.

Modules:

- `Locators` (locators.dfy): the `By` strategies, locators, and the XPath
  union `"|".join("(x)" …)` with its round trip through `split("|")`.
- `Driver` (driver.dfy): the abstract page, the exceptions that cross the
  core, and the lookup `locate` performs once its scope is known. This
  covers Python truthiness of the index, negative indexing, the IndexError,
  and the hint-adding `except` clause. An exception an action raises that is not a
  WebDriverException (a ValueError from `send_keys`, say) is `Other`.
- `Scoping` (scoping.dfy): the parent-scope stack as a value, and a replay of
  enter/exit events proving that well-nested scopes restore the stack.
- `Interaction` (interaction.dfy): the `gui_interaction` loop as a method
  over a script of outcomes. It records a trace of waits, calls, warnings and
  sleeps.
- `Element` (element.dfy): the `UIElement` class (fields `parent`, `locator`,
  `index`, the class as `cls`), the `ParentStack` class, construction,
  `locate`, `locate_multiple`, the builders, `__enter__`/`__exit__`, `visible`
  and `click`.

Notes on the behaviour modelled:

- The index test is `if self.i:`. Index 0 therefore takes the `find_element`
  path, like no index at all. A nonzero index uses Python list indexing, so
  a negative index counts from the end. Out of range is an IndexError. That
  is not a WebDriverException, so `gui_interaction` does not retry it.
- Under a parent, only the lookup of the element itself is inside the
  `try`. A failure of the parent chain propagates unchanged. A
  NoSuchElement from the top-level ancestor therefore escapes as it is,
  while one from a lookup under a resolved parent becomes a plain
  WebDriverException with the parent hint.
- In the no-parent branch of `locate_multiple`, the copies are built by
  `self.__class__()`. Their parent is therefore whatever the constructor
  takes from the stack at that moment, not the original's `None`. The model
  states this, and proves that a copy which kept the original's parent
  resolves to the match at its own position.
- `gui_interaction` logs a warning on every driver failure, including the
  third one, which it re-raises. Three driver failures therefore give three
  warnings and two sleeps.
- The readiness waits run once, before the loop, not again on each retry.

## Model

| member | source | states |
|---|---|---|
| `Locators.XPathsLocator` | element.py:88-90 | `located_by_xpaths` gives an XPath locator; one fragment `x` gives `(x)`, no fragments give the empty string |
| `Locators.XPathUnionAppend` | element.py:89 | adding a fragment to a non-empty union appends `|(x)` |
| `Locators.XPathUnionRoundTrip` | element.py:89 | for a non-empty list of fragments, none containing `|`, splitting the union at `|` gives back exactly the parenthesised fragments, in order |
| `Driver.FindFirst` | element.py:57 | `find_element` is the first match; with no match it raises NoSuchElement with the driver's message; a driver exception passes through |
| `Driver.PyIndex` | element.py:55 | `find_elements(...)[i]` succeeds exactly when `-n <= i < n`, picking from the end for negative `i`; otherwise it is an IndexError |
| `Driver.Select` | element.py:54-57 | index None or 0 takes the single-result path; a position in range selects that match (0 included); a truthy index out of range is an IndexError; the result is always one of the current matches |
| `Driver.Rewrap` | element.py:59-63 | under a parent, a NoSuchElement becomes a WebDriverException with the message plus the parent hint; other driver exceptions keep their message; no NoSuchElement leaves the clause |
| `Scoping.Apply` | element.py:166-171 | enter appends the element; exit pops the top, and fails exactly on an empty stack |
| `Scoping.RunKeepsOuter` | element.py:166-171 | a run of scope events that never exits more than it entered never fails, and leaves everything below the starting height untouched |
| `Scoping.BalancedRestores` | element.py:166-171 | well-nested scopes leave the stack exactly as they found it |
| `Scoping.EnterBodyExit` | element.py:166-171 | one enter/exit pair around a well-nested body restores the stack |
| `Interaction.Calls` | element.py:188-197 | the action is called between one and three times |
| `Interaction.GuiInteraction` | element.py:184-197 | the trace is the two readiness waits once, then the attempts' events; the result is what the attempts return or re-raise |
| `Interaction.RetryResultIsLastCall` | element.py:189-196 | the wrapper returns the outcome of its last call; every earlier call was a driver failure; fewer than three calls means the outcome is not a driver failure |
| `Interaction.RetryTraceCounts` | element.py:185-197 | calls = attempts made (at most 3); sleeps = attempts − 1; warnings = sleeps plus one if the third failure was re-raised; no wait inside the loop |
| `Interaction.TraceShape` | element.py:192-197 | every sleep follows a warning and precedes the next call; every warning starts with the wrapper's message and " failed\n" |
| `Interaction.OtherFailureNotRetried` | element.py:191-193 | a non-driver exception propagates from the first call, with no warning and no sleep |
| `Interaction.TwoFailuresThenSuccess` | element.py:189-197 | two driver failures then a success: the success is returned after two warnings and two sleeps |
| `Interaction.ThreeFailuresReraised` | element.py:189-197 | three driver failures: the third is re-raised after three warnings and two sleeps |
| `Element.ParentStack.constructor` | element.py:15 | the class-level `_parents_stack` starts out empty |
| `Element.ConstructionParent` | element.py:29-33 | the parent is non-null exactly when the stack is non-empty and neither the class nor the argument is top-level, and then it is the top of the stack |
| `Element.UIElement.constructor` | element.py:28-35 | the parent is the stack's top unless the stack is empty or the element is top-level; the locator is the class default; the index is None |
| `Element.UIElement.Ancestry` | element.py:50-51 | the parent chain starts at the element, ends at an element without parent, and every member is valid |
| `Element.UIElement.ScopeIn` | element.py:50-51 | with no parent the scope is the whole page; with a parent it is the node the parent resolves to, and a failure of the parent is passed on |
| `Element.UIElement.Locate` | element.py:46-71 | no locator: NotImplementedError, before the parent is resolved; a result is one of the current matches in the element's own scope, which is inside the parent's node when there is one; a parent failure comes back unchanged; under a parent a NoSuchElement only comes from the parent's resolution |
| `Element.UIElement.Visible` | element.py:19-26 | true exactly when the element resolves and `is_displayed()` returns true; a resolution failure or a failure of `is_displayed` gives false |
| `Element.UIElement.AllMatches` | element.py:74-80 | `locate_multiple`'s lookup: NotImplementedError without a locator; otherwise `find_elements` in the element's scope, with parent failures passed on |
| `Element.UIElement.SetIndex` | element.py:37-39 | sets the index only and returns the element |
| `Element.UIElement.LocatedBy` | element.py:84-86 | sets the locator only and returns the element |
| `Element.UIElement.LocatedByXPaths` | element.py:88-90 | sets the locator to the XPath union of the fragments, nothing else, and returns the element |
| `Element.UIElement.LocatedByXPath` | element.py:92-93 | sets an XPath locator only and returns the element |
| `Element.UIElement.LocatedByCssSelector` | element.py:95-96 | sets a CSS-selector locator only and returns the element |
| `Element.UIElement.LocatedById` | element.py:98-99 | sets an id locator only and returns the element |
| `Element.UIElement.LocatedByLinkText` | element.py:101-102 | sets a link-text locator only and returns the element |
| `Element.UIElement.LocatedByPartialLinkText` | element.py:104-105 | sets a partial-link-text locator only and returns the element |
| `Element.UIElement.WithParent` | element.py:107-109 | sets the parent only and returns the element; the chain stays acyclic when the new parent's is and does not pass through the element |
| `Element.UIElement.Resync` | element.py:107-109 | after an ancestor's `with_parent`, re-establishes a descendant's footprint so that it is valid again over the new chain |
| `Element.ReparentAncestor` | element.py:107-116 | re-parenting `p` after `c` was built under it: `c` keeps `p`, and its chain becomes `c`, `p`, then `q`'s chain |
| `Element.UIElement.Subelement` | element.py:111-116 | a fresh element of the given class (UIElement by default) whose parent is this element, with the class default locator and no index |
| `Element.UIElement.Enter` | element.py:166-168 | pushes this element on the stack and returns it; nothing else changes; the step is `Scoping.Apply` of an enter event, so `Scoping.BalancedRestores` applies to it |
| `Element.UIElement.Exit` | element.py:170-171 | pops the top of the stack; an empty stack raises IndexError and stays empty; the step is `Scoping.Apply` of an exit event, failing exactly when this raises |
| `Element.UIElement.LocateMultiple` | element.py:73-82 | fails exactly as the lookup fails; otherwise one fresh, distinct copy per match with the same class and locator and index k; its parent is the original's parent, or, when the original has none, the parent `__init__` picks from the stack (none for a top-level class or an empty stack); a copy that kept the parent resolves to match k |
| `Element.UIElement.Attempt` | element.py:142-146 | one attempt of an interaction: the resolution's failure, or the action on the resolved node; `Element.StaleResolutionRetried` shows a failed resolution being retried |
| `Element.UIElement.Outcomes` | element.py:142-146 | attempt k resolves the element afresh on the page of attempt k, so a resolution that failed on one page can succeed on the next (`Element.StaleResolutionRetried`) |
| `Element.UIElement.Interact` | element.py:124-164 | an interaction is the retry wrapper over fresh resolutions; an unconfigured element fails with NotImplementedError after one call |
| `Element.UIElement.Click` | element.py:142-146 | `click` is the retry wrapper's full trace and result over fresh resolutions, with message `Click on <element>`: at most three clicks, a sleep only before a retry, every warning naming the element |
| `Element.DescribeNamesClassAndLocator` | element.py:173-174 | `str(e)` begins with the class as `str(self.__class__)` renders it and ends with " located by " and the rendered locator |
| `Element.CopyResolvesToPosition` | element.py:53-69 | an element with the original's parent and locator and index k, `-n <= k < n`, resolves to match k, counting from the end for negative k, for k = 0 too |
| `Element.IndexOutOfRangeRaised` | element.py:53-69 | a truthy index outside the current matches raises IndexError, with or without a parent, and it is not a driver exception |
| `Element.NotImplementedIffUnconfigured` | element.py:46-51 | resolution raises NotImplementedError exactly when some element of the parent chain has no locator |
| `Element.NoSuchElementOnlyFromTop` | element.py:50-69 | a NoSuchElement that escapes `locate` is the top-level ancestor's own |
| `Element.LookupFailureUnderParent` | element.py:53-63 | under a resolved parent, a missing element gives a WebDriverException with the driver's message and the hint naming the parent; other lookup failures are unchanged |
| `Element.IndexZeroLikeNone` | element.py:54-57 | index None or 0 resolves through `find_element`, the first match of the element's scope, rewrapped under a parent |
| `Element.StaleResolutionRetried` | element.py:142-146 | a resolution that raises a driver exception on the first page and succeeds on the second gives the action on the second page's node, after one warning and one sleep |
| `Element.DeclareInScope` | element.py:28-35 | an element built inside `with e:` has parent `e` unless top-level; the stack and `e` are as before |

## Left out

- The browser driver, `ActionChains` and `execute_script` are not modelled beyond the abstract page. `hover`, `native_click`, `highlight` and `UIElementsList.highlight` are side effects in a browser with no observable contract.
- `send_keys`, `get_attribute`, `text`, `hover` and `native_click` are each `Interact` with their own driver effect and message. Only `click` is written out.
- `as_list` is `gui_interaction` around `locate_multiple`. An attempt that allocates new elements cannot be a scripted outcome, so the two parts are modelled separately (`LocateMultiple`, `Interact`).
- `UIElementsList` is a plain sequence of elements; its only extra method, `highlight`, is browser I/O.
- The `autodoc.api.take_screenshot` decorator on `locate` is not part of this model. `visible` passes `timeout=0.5` to `locate`, and whether that keyword is accepted depends on the decorator. `Visible` assumes the decorator accepts `timeout` and calls `locate()` without it. If the keyword reached `locate`, the call would raise TypeError and the bare `except` would make `visible` always false.
- The readiness predicates, the logger and `time.sleep` are external calls or wall-clock time. Each appears once in the trace as an event; how long a wait blocks is not modelled.
- The `element` property is an alias of `locate`.
- `findbys.py` (the experimental `FindBy` decorator and the example `LoginPage`) is not part of this model.
- `Element.UIElement.Locate`: requires `Valid`, an acyclic parent chain whose ghost footprint `Repr` on every element is up to date. A cycle made with `with_parent`, on which the source recurses until RecursionError, is not modelled.
- `Element.UIElement.WithParent`: re-establishes only its own element's footprint. Descendants built earlier still resolve through the new chain in the source by aliasing, but in the model each must have its `Repr` re-established with `Resync`, nearest first, before it can be located again (`ReparentAncestor` shows one level).
- `Element.UIElement.Describe`: renders `__str__` as `<class '…'> located by ('strategy', 'value')` without Python's escaping of quotes in the value. The class name is the variant's name; `Base` carries the module path `framework.components.element.UIElement` that `str(UIElement)` prints, and a subclass's variant must carry its own module-qualified name.
- `Element.UIElement.Interact`: the outcome of each of the three attempts is computed from that attempt's page snapshot. Attempts that are never made have no effect, so this matches the lazy closure.
- `Element.UIElement.LocateMultiple`: a copy's validity is promised only when its parent's chain is valid. Without a parent, that parent comes from the stack, whose entries carry no invariant.
- The parent-scope stack is one explicit `ParentStack` object instead of process-wide state. Concurrent use from several threads is not modelled.
- Subclass constructors are taken to accept the base constructor's arguments. `self.__class__()` and `_class()` are modelled as constructing the element's `Variant` with the base `__init__`.

/**
  The selector lists of the harvester and the first-non-empty cascade over
  them (`find_element_by_selectors`).
  */
module Selectors {
  import opened Wrappers
  import opened Text
  import opened Dom

  const PostSelectors: seq<string> := [
    "[data-testid=\"post\"]",
    "article",
    "[role=\"article\"]",
    "div[data-pressable-container=\"true\"]"]

  const UsernameSelectors: seq<string> := [
    "a[href^=\"/@\"]",
    "[data-testid=\"username\"]",
    ".x1i10hfl.xjbqb8w.x1ejq31n.xd10rxx"]

  const DisplayNameSelectors: seq<string> := [
    "[data-testid=\"username\"]",
    ".x1i10hfl.xjbqb8w.x1ejq31n.xd10rxx span",
    "h3", "h4"]

  const ContentSelectors: seq<string> := [
    "span[dir=\"auto\"]",
    "[data-testid=\"post-text\"]",
    "[data-testid=\"text-post-content\"]",
    "div[dir=\"auto\"]",
    "div > span"]

  const TimestampSelectors: seq<string> := [
    "time",
    "[datetime]",
    "a[href*=\"/post/\"] time"]

  const PostLinkSelector := "a[href*=\"/post/\"]"
  const AlternativeLinkSelector := "a[href*=\"threads.com\"]"
  const ContentMarkerSelector := "span[dir=\"auto\"]"

  /** How a cascade reads the first element a selector matches. */
  datatype Reading =
    | AttributeValue(name: string)   // `get_attribute(name)`, absent reads as ""
    | StrippedText                   // `inner_text().strip()`
    | HrefOrText                     // `get_attribute("href") or inner_text()`

  function ReadNode(n: Node, how: Reading): string {
    match how
    case AttributeValue(name) => AttributeText(n, name)
    case StrippedText => Strip(n.innerText)
    case HrefOrText =>
      var href := AttributeText(n, "href");
      if href != "" then href else n.innerText
  }

  /** What one selector contributes: the reading of its first match, or "". */
  function SelectorValue(c: Container, selector: string, how: Reading): string {
    match QuerySelector(c, selector)
    case None => ""
    case Some(n) => ReadNode(n, how)
  }

  /** The cascade: the value of the first selector, in list order, whose first
      match reads non-empty; "" when no selector succeeds. */
  function FirstValue(c: Container, selectors: seq<string>, how: Reading): (r: string)
    ensures r == "" <==> forall i :: 0 <= i < |selectors| ==> SelectorValue(c, selectors[i], how) == ""
    ensures r != "" ==>
      exists i :: && 0 <= i < |selectors|
                  && r == SelectorValue(c, selectors[i], how)
                  && (forall j :: 0 <= j < i ==> SelectorValue(c, selectors[j], how) == "")
    decreases |selectors|
  {
    if selectors == [] then ""
    else
      var v := SelectorValue(c, selectors[0], how);
      if v != "" then v
      else
        var r := FirstValue(c, selectors[1..], how);
        assert forall i :: 0 <= i < |selectors| - 1 ==> selectors[1..][i] == selectors[i + 1];
        if r != "" then
          ghost var i :| 0 <= i < |selectors| - 1 && r == SelectorValue(c, selectors[1..][i], how)
            && forall j :: 0 <= j < i ==> SelectorValue(c, selectors[1..][j], how) == "";
          assert forall j :: 0 <= j < i + 1 ==> SelectorValue(c, selectors[j], how) == "" by {
            forall j | 0 <= j < i + 1 ensures SelectorValue(c, selectors[j], how) == "" {
              if j > 0 { assert selectors[j] == selectors[1..][j - 1]; }
            }
          }
          r
        else r
  }

  /** `find_element_by_selectors(element, selectors, attribute)`: the attribute
      is read only when it is given and non-empty, the stripped text otherwise. */
  function FindElementBySelectors(c: Container, selectors: seq<string>, attribute: Option<string>): string {
    FirstValue(c, selectors,
      if attribute.Some? && attribute.value != "" then AttributeValue(attribute.value) else StrippedText)
  }
}

/**
 * The parsed page that the scraping rules of `lyricwiki/scrape.py` walk: a tree of text
 * nodes and elements, with the few lookups the rules use (`.name`, `.text`, `.children`,
 * `.get`, `findAll`, `find`) and Python's truthiness of a node.
 */
module Markup {
  import opened Wrappers
  import opened PyStr

  /** A text node, or an element with its name, its class list, its other attributes and its children. */
  datatype Node =
    | Text(content: string)
    | Tag(name: string, classes: seq<string>, attrs: map<string, string>, children: seq<Node>)

  /** `.name`: the element name, `None` for a text node. */
  function Name(n: Node): (r: Option<string>)
    ensures r.Some? <==> n.Tag?
  {
    if n.Tag? then Some(n.name) else None
  }

  /** Whether `.name == name`. */
  predicate Named(n: Node, name: string) {
    n.Tag? && n.name == name
  }

  /** Python truthiness: an element is always true, a text node when it is not empty. */
  predicate Truthy(n: Node) {
    n.Tag? || n.content != ""
  }

  /** `.get(key)`: an attribute of an element, `None` when it has no such attribute. */
  function Attr(n: Node, key: string): (r: Option<string>)
    ensures r.Some? <==> n.Tag? && key in n.attrs
    ensures r.Some? ==> r.value == n.attrs[key]
  {
    if n.Tag? && key in n.attrs then Some(n.attrs[key]) else None
  }

  /** `.text`: the text nodes below `n`, concatenated in document order. */
  function GetText(n: Node): string
    decreases n
  {
    match n
    case Text(s) => s
    case Tag(_, _, _, cs) => TextOfAll(cs)
  }

  /** The texts of a list of sibling nodes, concatenated. */
  function TextOfAll(ns: seq<Node>): string
    decreases ns
  {
    if ns == [] then "" else GetText(ns[0]) + TextOfAll(ns[1..])
  }

  /** The nodes strictly below `n`, in document (pre-)order, as `findAll` visits them. */
  function Descendants(n: Node): seq<Node>
    decreases n
  {
    match n
    case Text(_) => []
    case Tag(_, _, _, cs) => DescendantsOfAll(cs)
  }

  /** Every node of the subtrees of a list of siblings, in document order. */
  function DescendantsOfAll(ns: seq<Node>): seq<Node>
    decreases ns
  {
    if ns == [] then [] else [ns[0]] + Descendants(ns[0]) + DescendantsOfAll(ns[1..])
  }

  /**
   * The class filter of a `findAll` call: none, or a set of accepted values. A set matches an
   * element when one of its classes, or its whole space-separated class string, is in the set.
   */
  datatype ClassTest = AnyClass | ClassIn(accepted: set<string>)

  predicate ClassMatches(classes: seq<string>, t: ClassTest) {
    match t
    case AnyClass => true
    case ClassIn(accepted) =>
      |classes| > 0 && ((exists c :: c in classes && c in accepted) || Join(classes, " ") in accepted)
  }

  /** Whether `findAll(name, ...)` with class filter `t` selects `n`. */
  predicate Matches(n: Node, name: string, t: ClassTest) {
    Named(n, name) && ClassMatches(n.classes, t)
  }

  /** The nodes of `ns` that `name` and `t` select, in their order. */
  function Select(ns: seq<Node>, name: string, t: ClassTest): seq<Node> {
    if ns == [] then []
    else (if Matches(ns[0], name, t) then [ns[0]] else []) + Select(ns[1..], name, t)
  }

  /** `Select` keeps exactly the matching nodes. */
  lemma {:induction false} SelectExactly(ns: seq<Node>, name: string, t: ClassTest)
    ensures forall d :: d in Select(ns, name, t) <==> d in ns && Matches(d, name, t)
  {
    if ns != [] {
      SelectExactly(ns[1..], name, t);
      assert ns == [ns[0]] + ns[1..];
    }
  }

  /** The first node `Select` keeps is the first matching node of `ns`. */
  lemma {:induction false} SelectFirst(ns: seq<Node>, name: string, t: ClassTest)
    requires |Select(ns, name, t)| > 0
    ensures exists k | 0 <= k < |ns| ::
      ns[k] == Select(ns, name, t)[0] && Matches(ns[k], name, t)
      && forall j | 0 <= j < k :: !Matches(ns[j], name, t)
  {
    if !Matches(ns[0], name, t) {
      SelectFirst(ns[1..], name, t);
      var k :| 0 <= k < |ns[1..]| && ns[1..][k] == Select(ns[1..], name, t)[0]
        && Matches(ns[1..][k], name, t) && forall j | 0 <= j < k :: !Matches(ns[1..][j], name, t);
      assert forall j | 0 <= j < k + 1 :: !Matches(ns[j], name, t) by {
        forall j | 0 <= j < k + 1 ensures !Matches(ns[j], name, t) {
          if j > 0 { assert ns[j] == ns[1..][j - 1]; }
        }
      }
      assert ns[k + 1] == Select(ns, name, t)[0];
    } else {
      assert ns[0] == Select(ns, name, t)[0];
    }
  }

  /** `n.findAll(name, attrs=...)`: the matching nodes below `n`, in document order. */
  function FindAll(n: Node, name: string, t: ClassTest): seq<Node> {
    Select(Descendants(n), name, t)
  }

  /** `findAll` finds every matching node below `n` and nothing else. */
  lemma FindAllExactly(n: Node, name: string, t: ClassTest)
    ensures forall d :: d in FindAll(n, name, t) <==> d in Descendants(n) && Matches(d, name, t)
  {
    SelectExactly(Descendants(n), name, t);
  }

  /** `n.find(name)`: the first element named `name` below `n`, `None` when there is none. */
  function FindFirst(n: Node, name: string): Option<Node> {
    var all := FindAll(n, name, AnyClass);
    if |all| == 0 then None else Some(all[0])
  }

  /**
   * `find` returns the first element named `name` below `n` in document order, and `None` only
   * when there is none.
   */
  lemma FindFirstFinds(n: Node, name: string)
    ensures var r := FindFirst(n, name);
      r.Some? ==> Named(r.value, name) && r.value in Descendants(n)
    ensures var r := FindFirst(n, name);
      r.Some? ==> exists k | 0 <= k < |Descendants(n)| ::
        Descendants(n)[k] == r.value && forall j | 0 <= j < k :: !Named(Descendants(n)[j], name)
    ensures FindFirst(n, name).None? <==> forall d :: d in Descendants(n) ==> !Named(d, name)
  {
    var all := FindAll(n, name, AnyClass);
    FindAllExactly(n, name, AnyClass);
    if |all| > 0 {
      assert all[0] in all;
      SelectFirst(Descendants(n), name, AnyClass);
    }
  }
}

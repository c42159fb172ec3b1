/**
 * The document lookups of WindCave/XmlHelper.cs over an abstract XML tree.
 * A parsed document is its root node; element names are compared exactly.
 */
module XmlHelper {
  import opened Wrappers
  import opened Faults

  /** An XML node: a text node, or an element with attributes and ordered children. */
  datatype Node =
    | Text(content: string)
    | Element(name: string, attributes: map<string, string>, children: seq<Node>)

  /** Every element of the tree rooted at `n`, in document order (preorder, `n` first). */
  function AllElements(n: Node): (r: seq<Node>)
    ensures forall i :: 0 <= i < |r| ==> r[i].Element?
  {
    match n
    case Text(_) => []
    case Element(_, _, children) => [n] + AllElementsOf(children)
  }

  function AllElementsOf(ns: seq<Node>): (r: seq<Node>)
    ensures forall i :: 0 <= i < |r| ==> r[i].Element?
  {
    if ns == [] then [] else AllElements(ns[0]) + AllElementsOf(ns[1..])
  }

  /** The elements of `ns` that are elements named `t`, keeping their order. */
  function Named(ns: seq<Node>, t: string): (r: seq<Node>)
    ensures forall i :: 0 <= i < |r| ==> r[i].Element? && r[i].name == t
    ensures |r| <= |ns|
  {
    if ns == [] then []
    else (if ns[0].Element? && ns[0].name == t then [ns[0]] else []) + Named(ns[1..], t)
  }

  /** `XmlDocument.GetElementsByTagName(t)`: the elements named `t`, in document order. */
  function ElementsByTagName(n: Node, t: string): seq<Node>
  {
    match n
    case Text(_) => []
    case Element(name, _, children) =>
      (if name == t then [n] else []) + ElementsByTagNameOf(children, t)
  }

  function ElementsByTagNameOf(ns: seq<Node>, t: string): seq<Node>
  {
    if ns == [] then [] else ElementsByTagName(ns[0], t) + ElementsByTagNameOf(ns[1..], t)
  }

  /** `XmlNode.InnerText`: the concatenated text of every text node below `n`. */
  function InnerText(n: Node): string
  {
    match n
    case Text(s) => s
    case Element(_, _, children) => InnerTextOf(children)
  }

  function InnerTextOf(ns: seq<Node>): string
  {
    if ns == [] then "" else InnerText(ns[0]) + InnerTextOf(ns[1..])
  }

  /** The value of attribute `a` of element `n`, if it has one. */
  function Attribute(n: Node, a: string): Option<string>
  {
    if n.Element? && a in n.attributes then Some(n.attributes[a]) else None
  }

  /** An element named `t` occurs somewhere in the tree rooted at `n`. */
  ghost predicate Occurs(n: Node, t: string)
  {
    n.Element? && (n.name == t || exists i :: 0 <= i < |n.children| && Occurs(n.children[i], t))
  }

  /**
   * `XmlHelper.TagExists`: `GetElementsByTagName(t).Count > 0`, which holds exactly
   * when an element named `t` occurs anywhere in the document.
   */
  predicate TagExists(doc: Node, t: string)
    ensures TagExists(doc, t) <==> Occurs(doc, t)
  {
    FoundIffOccurs(doc, t);
    |ElementsByTagName(doc, t)| > 0
  }

  /**
   * `XmlHelper.GetString(XmlDocument, string)`: the inner text of the first element
   * named `t`; indexing an empty node list gives null, so an absent tag throws.
   */
  function GetString(doc: Node, t: string): (r: Result<string, Fault>)
    ensures r.Success? <==> TagExists(doc, t)
    ensures r.Failure? ==> r.error == MissingTag(t)
  {
    var found := ElementsByTagName(doc, t);
    if |found| == 0 then Failure(MissingTag(t)) else Success(InnerText(found[0]))
  }

  /**
   * `XmlHelper.GetString(XmlNode, string)`: `SelectNodes(t)` with a bare name selects
   * the direct child elements named `t`; the first one's inner text is returned.
   */
  function GetChildString(node: Node, t: string): (r: Result<string, Fault>)
    ensures r.Success? <==> node.Element? && exists i :: 0 <= i < |node.children| && node.children[i].Element? && node.children[i].name == t
    ensures r.Success? ==> exists i :: 0 <= i < |node.children| && node.children[i].Element? && node.children[i].name == t
                                      && (forall j :: 0 <= j < i ==> !(node.children[j].Element? && node.children[j].name == t))
                                      && r.value == InnerText(node.children[i])
    ensures r.Failure? ==> r.error == MissingTag(t)
  {
    if node.Text? then Failure(MissingTag(t))
    else
      NamedFirst(node.children, t);
      var found := Named(node.children, t);
      if |found| == 0 then Failure(MissingTag(t)) else Success(InnerText(found[0]))
  }

  /**
   * `XmlHelper.GetEnum<T>`: the tag's text parsed by `parse`, which is the strict name
   * parser of the enumeration `T`; a missing tag or an unknown name throws.
   */
  function GetEnum<T>(doc: Node, t: string, parse: string -> Option<T>): (r: Result<T, Fault>)
    ensures r.Success? <==> GetString(doc, t).Success? && parse(GetString(doc, t).value).Some?
    ensures r.Success? ==> parse(GetString(doc, t).value) == Some(r.value)
    ensures GetString(doc, t).Failure? ==> r.Failure? && r.error == MissingTag(t)
    ensures GetString(doc, t).Success? && parse(GetString(doc, t).value).None? ==>
      r == Failure(UnknownEnumName(t, GetString(doc, t).value))
  {
    var text :- GetString(doc, t);
    match parse(text)
    case None => Failure(UnknownEnumName(t, text))
    case Some(v) => Success(v)
  }

  // ---------------------------------------------------------------------------
  // Lemmas

  /** The first element of `Named(ns, t)` is the lowest-indexed match in `ns`. */
  lemma {:induction false} NamedFirst(ns: seq<Node>, t: string)
    ensures |Named(ns, t)| > 0 <==> exists i :: 0 <= i < |ns| && ns[i].Element? && ns[i].name == t
    ensures |Named(ns, t)| > 0 ==>
      exists i :: 0 <= i < |ns| && ns[i].Element? && ns[i].name == t && Named(ns, t)[0] == ns[i]
               && forall j :: 0 <= j < i ==> !(ns[j].Element? && ns[j].name == t)
  {
    if ns != [] {
      NamedFirst(ns[1..], t);
      if !(ns[0].Element? && ns[0].name == t) {
        if |Named(ns[1..], t)| > 0 {
          var k :| 0 <= k < |ns[1..]| && ns[1..][k].Element? && ns[1..][k].name == t && Named(ns[1..], t)[0] == ns[1..][k]
                   && forall j :: 0 <= j < k ==> !(ns[1..][j].Element? && ns[1..][j].name == t);
          assert ns[k + 1] == ns[1..][k];
          assert forall j :: 0 <= j < k + 1 ==> !(ns[j].Element? && ns[j].name == t) by {
            forall j | 0 <= j < k + 1 ensures !(ns[j].Element? && ns[j].name == t) {
              if j > 0 { assert ns[j] == ns[1..][j - 1]; }
            }
          }
        } else {
          forall i | 0 <= i < |ns| ensures !(ns[i].Element? && ns[i].name == t) {
            if i > 0 { assert ns[i] == ns[1..][i - 1]; }
          }
        }
      }
    }
  }

  lemma NamedAppend(a: seq<Node>, b: seq<Node>, t: string)
    ensures Named(a + b, t) == Named(a, t) + Named(b, t)
  {
    if a == [] {
      assert a + b == b;
    } else {
      assert (a + b)[1..] == a[1..] + b;
      NamedAppend(a[1..], b, t);
    }
  }

  /** `GetElementsByTagName(t)` is the document-order list of all elements, filtered by name. */
  lemma {:induction false} ElementsByTagNameIsFilter(n: Node, t: string)
    ensures ElementsByTagName(n, t) == Named(AllElements(n), t)
  {
    match n
    case Text(_) =>
    case Element(_, _, children) =>
      ElementsByTagNameOfIsFilter(children, t);
      NamedAppend([n], AllElementsOf(children), t);
  }

  lemma {:induction false} ElementsByTagNameOfIsFilter(ns: seq<Node>, t: string)
    ensures ElementsByTagNameOf(ns, t) == Named(AllElementsOf(ns), t)
  {
    if ns != [] {
      ElementsByTagNameIsFilter(ns[0], t);
      ElementsByTagNameOfIsFilter(ns[1..], t);
      NamedAppend(AllElements(ns[0]), AllElementsOf(ns[1..]), t);
    }
  }

  /** Some element named `t` is found in `doc` exactly when one occurs anywhere in it. */
  lemma {:induction false} FoundIffOccurs(doc: Node, t: string)
    ensures |ElementsByTagName(doc, t)| > 0 <==> Occurs(doc, t)
  {
    match doc
    case Text(_) =>
    case Element(name, _, children) =>
      OccursInSome(children, t);
  }

  lemma {:induction false} OccursInSome(ns: seq<Node>, t: string)
    ensures |ElementsByTagNameOf(ns, t)| > 0 <==> exists i :: 0 <= i < |ns| && Occurs(ns[i], t)
  {
    if ns != [] {
      FoundIffOccurs(ns[0], t);
      OccursInSome(ns[1..], t);
      if exists i :: 0 <= i < |ns| && Occurs(ns[i], t) {
        var i :| 0 <= i < |ns| && Occurs(ns[i], t);
        if i > 0 { assert ns[i] == ns[1..][i - 1]; }
      }
      if exists i :: 0 <= i < |ns[1..]| && Occurs(ns[1..][i], t) {
        var i :| 0 <= i < |ns[1..]| && Occurs(ns[1..][i], t);
        assert ns[i + 1] == ns[1..][i];
      }
    }
  }

  /**
   * `GetString(doc, t)` yields the inner text of the first element named `t` in document
   * order; later elements with the same name are ignored.
   */
  lemma GetStringFirstInDocumentOrder(doc: Node, t: string)
    ensures GetString(doc, t).Success? <==> exists i :: 0 <= i < |AllElements(doc)| && AllElements(doc)[i].name == t
    ensures GetString(doc, t).Success? ==>
      exists i :: 0 <= i < |AllElements(doc)| && AllElements(doc)[i].name == t
               && (forall j :: 0 <= j < i ==> AllElements(doc)[j].name != t)
               && GetString(doc, t).value == InnerText(AllElements(doc)[i])
  {
    ElementsByTagNameIsFilter(doc, t);
    NamedFirst(AllElements(doc), t);
  }

  lemma ElementsByTagNameOfAppend(a: seq<Node>, b: seq<Node>, t: string)
    ensures ElementsByTagNameOf(a + b, t) == ElementsByTagNameOf(a, t) + ElementsByTagNameOf(b, t)
  {
    if a == [] {
      assert a + b == b;
    } else {
      assert (a + b)[1..] == a[1..] + b;
      ElementsByTagNameOfAppend(a[1..], b, t);
    }
  }

  /** The elements found among `ns` are those found before, at and after position `i`. */
  lemma ElementsByTagNameOfSplit(ns: seq<Node>, i: nat, t: string)
    requires i < |ns|
    ensures ElementsByTagNameOf(ns, t) ==
      ElementsByTagNameOf(ns[..i], t) + ElementsByTagName(ns[i], t) + ElementsByTagNameOf(ns[i + 1..], t)
  {
    assert ns == ns[..i] + [ns[i]] + ns[i + 1..];
    ElementsByTagNameOfAppend(ns[..i] + [ns[i]], ns[i + 1..], t);
    ElementsByTagNameOfAppend(ns[..i], [ns[i]], t);
    assert ElementsByTagNameOf([ns[i]], t) == ElementsByTagName(ns[i], t) + ElementsByTagNameOf([], t);
  }

  /**
   * `n` with `x` inserted as child number `k` of the element reached from `n` by
   * following the child indices of `path`; `n` unchanged where the path leads nowhere.
   * Read backwards, it removes the subtree `x` from that place.
   */
  function InsertAt(n: Node, path: seq<nat>, k: nat, x: Node): Node
    decreases |path|
  {
    if !n.Element? then n
    else if path == [] then
      if k <= |n.children| then Element(n.name, n.attributes, n.children[..k] + [x] + n.children[k..]) else n
    else if path[0] < |n.children| then
      Element(n.name, n.attributes, n.children[path[0] := InsertAt(n.children[path[0]], path[1..], k, x)])
    else n
  }

  /** No element on `path` from `n` (`n` included) is named `t`. */
  predicate PathAvoids(n: Node, path: seq<nat>, t: string)
    decreases |path|
  {
    n.Element? && n.name != t &&
    (path != [] && path[0] < |n.children| ==> PathAvoids(n.children[path[0]], path[1..], t))
  }

  /**
   * Inserting a subtree without elements named `t` keeps the number of elements named
   * `t`, and keeps those elements themselves when none of them encloses the insertion.
   */
  lemma {:induction false} InsertAtElements(n: Node, path: seq<nat>, k: nat, x: Node, t: string)
    requires !Occurs(x, t)
    ensures |ElementsByTagName(InsertAt(n, path, k, x), t)| == |ElementsByTagName(n, t)|
    ensures PathAvoids(n, path, t) ==> ElementsByTagName(InsertAt(n, path, k, x), t) == ElementsByTagName(n, t)
    decreases |path|
  {
    if n.Element? {
      var cs := n.children;
      if path == [] {
        if k <= |cs| {
          FoundIffOccurs(x, t);
          ElementsByTagNameOfAppend(cs[..k] + [x], cs[k..], t);
          ElementsByTagNameOfAppend(cs[..k], [x], t);
          ElementsByTagNameOfAppend(cs[..k], cs[k..], t);
          assert cs[..k] + cs[k..] == cs;
          assert ElementsByTagNameOf([x], t) == ElementsByTagName(x, t) + ElementsByTagNameOf([], t);
        }
      } else if path[0] < |cs| {
        var i := path[0];
        var y := InsertAt(cs[i], path[1..], k, x);
        var cs' := cs[i := y];
        InsertAtElements(cs[i], path[1..], k, x, t);
        ElementsByTagNameOfSplit(cs, i, t);
        ElementsByTagNameOfSplit(cs', i, t);
        assert cs'[..i] == cs[..i] && cs'[i + 1..] == cs[i + 1..];
      }
    }
  }

  /**
   * Adding (or, read backwards, removing) a subtree that holds no element named `t`,
   * anywhere in the document, does not change `TagExists` for `t`. It does not change
   * `GetString` for `t` either when no element enclosing the insertion is named `t`
   * (otherwise the inner text of that enclosing element may grow).
   */
  lemma OtherTagsDoNotMatter(doc: Node, path: seq<nat>, k: nat, x: Node, t: string)
    requires !Occurs(x, t)
    ensures TagExists(InsertAt(doc, path, k, x), t) == TagExists(doc, t)
    ensures PathAvoids(doc, path, t) ==> GetString(InsertAt(doc, path, k, x), t) == GetString(doc, t)
  {
    InsertAtElements(doc, path, k, x, t);
  }

  // ---------------------------------------------------------------------------
  // Flat documents: a root whose children are leaf elements holding only text.

  /** The content `new XElement(name, text)` gets: no node for empty text. */
  function TextContent(text: string): seq<Node>
  {
    if text == "" then [] else [Text(text)]
  }

  /** `new XElement(name, text)`. */
  function Leaf(name: string, text: string): (n: Node)
    ensures InnerText(n) == text
  {
    assert InnerTextOf([Text(text)]) == text + InnerTextOf([Text(text)][1..]);
    Element(name, map[], TextContent(text))
  }

  /** Leaf elements for a list of (name, text) pairs, in order. */
  function Leaves(pairs: seq<(string, string)>): (r: seq<Node>)
    ensures |r| == |pairs|
    ensures forall i :: 0 <= i < |pairs| ==> r[i] == Leaf(pairs[i].0, pairs[i].1)
  {
    if pairs == [] then [] else [Leaf(pairs[0].0, pairs[0].1)] + Leaves(pairs[1..])
  }

  /** No two pairs carry the same name. */
  predicate DistinctNames(pairs: seq<(string, string)>)
  {
    forall i, j :: 0 <= i < j < |pairs| ==> pairs[i].0 != pairs[j].0
  }

  /** The pairs after the first still carry distinct names. */
  lemma DistinctNamesTail(pairs: seq<(string, string)>)
    requires pairs != [] && DistinctNames(pairs)
    ensures DistinctNames(pairs[1..])
  {
    var rest := pairs[1..];
    forall i, j | 0 <= i < j < |rest| ensures rest[i].0 != rest[j].0 {
      assert rest[i] == pairs[i + 1] && rest[j] == pairs[j + 1];
    }
  }

  /** A leaf is found by its own name only, and has no elements inside it. */
  lemma LeafElements(name: string, text: string, n: string)
    ensures ElementsByTagName(Leaf(name, text), n) == (if name == n then [Leaf(name, text)] else [])
  {
    if text != "" {
      assert ElementsByTagNameOf([Text(text)], n) == [] by {
        assert [Text(text)][1..] == [];
      }
    }
  }

  lemma {:induction false} LeavesLookup(pairs: seq<(string, string)>, n: string)
    requires DistinctNames(pairs)
    ensures (exists k :: 0 <= k < |pairs| && pairs[k].0 == n) ==>
      exists k :: 0 <= k < |pairs| && pairs[k].0 == n && ElementsByTagNameOf(Leaves(pairs), n) == [Leaf(n, pairs[k].1)]
    ensures (forall k :: 0 <= k < |pairs| ==> pairs[k].0 != n) ==> ElementsByTagNameOf(Leaves(pairs), n) == []
  {
    if pairs != [] {
      var rest := pairs[1..];
      DistinctNamesTail(pairs);
      LeavesLookup(rest, n);
      assert Leaves(pairs)[1..] == Leaves(rest);
      LeafElements(pairs[0].0, pairs[0].1, n);
      if pairs[0].0 == n {
        forall k | 0 <= k < |rest| ensures rest[k].0 != n {
          assert rest[k] == pairs[k + 1];
        }
      } else if exists k :: 0 <= k < |pairs| && pairs[k].0 == n {
        var k :| 0 <= k < |pairs| && pairs[k].0 == n;
        assert rest[k - 1] == pairs[k];
      } else {
        forall k | 0 <= k < |rest| ensures rest[k].0 != n {
          assert rest[k] == pairs[k + 1];
        }
      }
    }
  }

  /** Leaves have no element children, so searching them deeply or one level down agree. */
  lemma {:induction false} LeavesNamed(pairs: seq<(string, string)>, n: string)
    ensures Named(Leaves(pairs), n) == ElementsByTagNameOf(Leaves(pairs), n)
  {
    if pairs != [] {
      LeavesNamed(pairs[1..], n);
      var head := Leaf(pairs[0].0, pairs[0].1);
      assert Leaves(pairs)[0] == head;
      assert Leaves(pairs)[1..] == Leaves(pairs[1..]);
      assert ElementsByTagNameOf(head.children, n) == [] by {
        if pairs[0].1 != "" {
          assert [Text(pairs[0].1)][1..] == [];
        }
      }
      assert ElementsByTagName(head, n) == (if head.name == n then [head] else []);
    }
  }

  /**
   * In a flat document whose leaves have distinct names, looking up a leaf's name from
   * the document or from the root node finds that leaf's text.
   */
  lemma FlatDocumentLookup(root: string, attrs: map<string, string>, pairs: seq<(string, string)>, k: nat)
    requires DistinctNames(pairs) && k < |pairs| && pairs[k].0 != root
    ensures GetString(Element(root, attrs, Leaves(pairs)), pairs[k].0) == Success(pairs[k].1)
    ensures GetChildString(Element(root, attrs, Leaves(pairs)), pairs[k].0) == Success(pairs[k].1)
  {
    LeavesLookup(pairs, pairs[k].0);
    LeavesNamed(pairs, pairs[k].0);
    var i :| 0 <= i < |pairs| && pairs[i].0 == pairs[k].0 && ElementsByTagNameOf(Leaves(pairs), pairs[k].0) == [Leaf(pairs[k].0, pairs[i].1)];
    assert i == k;
  }

  /** In a flat document, a name no leaf carries (and the root does not carry) is absent. */
  lemma FlatDocumentAbsent(root: string, attrs: map<string, string>, pairs: seq<(string, string)>, n: string)
    requires DistinctNames(pairs) && n != root
    requires forall k :: 0 <= k < |pairs| ==> pairs[k].0 != n
    ensures !TagExists(Element(root, attrs, Leaves(pairs)), n)
    ensures GetChildString(Element(root, attrs, Leaves(pairs)), n).Failure?
  {
    LeavesLookup(pairs, n);
    LeavesNamed(pairs, n);
  }

  /** Searching leaves by name finds the first pair with that name first. */
  lemma {:induction false} LeavesFirst(pairs: seq<(string, string)>, n: string, k: nat)
    requires k < |pairs| && pairs[k].0 == n
    requires forall i :: 0 <= i < k ==> pairs[i].0 != n
    ensures ElementsByTagNameOf(Leaves(pairs), n) != []
    ensures ElementsByTagNameOf(Leaves(pairs), n)[0] == Leaf(n, pairs[k].1)
  {
    var rest := pairs[1..];
    assert Leaves(pairs)[1..] == Leaves(rest);
    LeafElements(pairs[0].0, pairs[0].1, n);
    if k > 0 {
      forall i | 0 <= i < k - 1 ensures rest[i].0 != n {
        assert rest[i] == pairs[i + 1];
      }
      LeavesFirst(rest, n, k - 1);
    }
  }

  /** A name that no pair carries is found nowhere among the leaves. */
  lemma {:induction false} LeavesNone(pairs: seq<(string, string)>, n: string)
    requires forall i :: 0 <= i < |pairs| ==> pairs[i].0 != n
    ensures ElementsByTagNameOf(Leaves(pairs), n) == []
  {
    if pairs != [] {
      var rest := pairs[1..];
      assert Leaves(pairs)[1..] == Leaves(rest);
      LeafElements(pairs[0].0, pairs[0].1, n);
      forall i | 0 <= i < |rest| ensures rest[i].0 != n {
        assert rest[i] == pairs[i + 1];
      }
      LeavesNone(rest, n);
    }
  }

  /** `GetString` reads the inner text of the first element found. */
  lemma GetStringFirstFound(doc: Node, n: string, v: string)
    requires ElementsByTagName(doc, n) != []
    requires InnerText(ElementsByTagName(doc, n)[0]) == v
    ensures GetString(doc, n) == Success(v)
  {
  }

  /** In a flat document, the first element found by a name is the first child with it. */
  lemma FlatDocumentFirstFound(root: string, attrs: map<string, string>, pairs: seq<(string, string)>, n: string, k: nat)
    requires k < |pairs| && pairs[k].0 == n && n != root
    requires forall i :: 0 <= i < k ==> pairs[i].0 != n
    ensures ElementsByTagName(Element(root, attrs, Leaves(pairs)), n) != []
    ensures InnerText(ElementsByTagName(Element(root, attrs, Leaves(pairs)), n)[0]) == pairs[k].1
  {
    LeavesFirst(pairs, n, k);
  }

  /** In a flat document, `GetString` gives the text of the first child with the name. */
  lemma FlatDocumentFirst(root: string, attrs: map<string, string>, pairs: seq<(string, string)>, n: string, k: nat)
    requires k < |pairs| && pairs[k].0 == n && n != root
    requires forall i :: 0 <= i < k ==> pairs[i].0 != n
    ensures GetString(Element(root, attrs, Leaves(pairs)), n) == Success(pairs[k].1)
  {
    FlatDocumentFirstFound(root, attrs, pairs, n, k);
    GetStringFirstFound(Element(root, attrs, Leaves(pairs)), n, pairs[k].1);
  }

  /** In a flat document, a name that is neither the root's nor a child's is absent. */
  lemma FlatDocumentNone(root: string, attrs: map<string, string>, pairs: seq<(string, string)>, n: string)
    requires n != root
    requires forall i :: 0 <= i < |pairs| ==> pairs[i].0 != n
    ensures !TagExists(Element(root, attrs, Leaves(pairs)), n)
  {
    LeavesNone(pairs, n);
    assert ElementsByTagName(Element(root, attrs, Leaves(pairs)), n) == ElementsByTagNameOf(Leaves(pairs), n);
  }

  /** When every pair with a name carries the same text, the first leaf found by that name has it. */
  lemma {:induction false} LeavesValued(pairs: seq<(string, string)>, n: string, v: string, k: nat)
    requires k < |pairs| && pairs[k].0 == n
    requires forall i :: 0 <= i < |pairs| && pairs[i].0 == n ==> pairs[i].1 == v
    ensures ElementsByTagNameOf(Leaves(pairs), n) != []
    ensures InnerText(ElementsByTagNameOf(Leaves(pairs), n)[0]) == v
  {
    if pairs[0].0 == n {
      LeavesFirst(pairs, n, 0);
    } else {
      var rest := pairs[1..];
      assert Leaves(pairs)[1..] == Leaves(rest);
      LeafElements(pairs[0].0, pairs[0].1, n);
      forall i | 0 <= i < |rest| && rest[i].0 == n ensures rest[i].1 == v {
        assert rest[i] == pairs[i + 1];
      }
      assert rest[k - 1] == pairs[k];
      LeavesValued(rest, n, v, k - 1);
    }
  }

  /** In a flat document where every child with a name carries the same text, `GetString` gives it. */
  lemma FlatDocumentValued(root: string, attrs: map<string, string>, pairs: seq<(string, string)>, n: string, v: string, k: nat)
    requires k < |pairs| && pairs[k].0 == n && n != root
    requires forall i :: 0 <= i < |pairs| && pairs[i].0 == n ==> pairs[i].1 == v
    ensures GetString(Element(root, attrs, Leaves(pairs)), n) == Success(v)
  {
    LeavesValued(pairs, n, v, k);
    FlatDocumentFound(root, attrs, pairs, n, v);
    GetStringFirstFound(Element(root, attrs, Leaves(pairs)), n, v);
  }

  /** A flat document under a differently named root finds what its children find. */
  lemma FlatDocumentFound(root: string, attrs: map<string, string>, pairs: seq<(string, string)>, n: string, v: string)
    requires n != root
    requires ElementsByTagNameOf(Leaves(pairs), n) != []
    requires InnerText(ElementsByTagNameOf(Leaves(pairs), n)[0]) == v
    ensures ElementsByTagName(Element(root, attrs, Leaves(pairs)), n) != []
    ensures InnerText(ElementsByTagName(Element(root, attrs, Leaves(pairs)), n)[0]) == v
  {
  }
}

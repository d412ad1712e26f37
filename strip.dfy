/** The strip filters of strip/strip.go, which remove sources of false
    positives before two selections are compared. `Numbers` and `Attrs`
    rewrite the caller's node objects in place and then render them; `HTML`
    only reads the tree. Rendering (htmlutil.RenderClean) is an oracle. */
module Strip {
  import opened Text
  import opened Seqs
  import opened Html

  /** settings.Newline, the separator `HTML` puts after every text node. */
  const Newline: string := "\n"

  // ---------------------------------------------------------------------
  // What each walker does to one node, and to a whole tree
  // ---------------------------------------------------------------------

  /** The string the inner rune loop of `Numbers` builds: `s` without its
      decimal digits, the other runes in order. */
  function DigitFree(s: string): string
  {
    if s == [] then []
    else DigitFree(s[..|s| - 1]) + (if IsDigit(s[|s| - 1]) then [] else [s[|s| - 1]])
  }

  /** DigitFree keeps every rune that is not a digit, and only those: no
      digit is left, and a string without digits comes back unchanged. */
  lemma {:induction false} DigitFreeDropsDigits(s: string)
    ensures |DigitFree(s)| <= |s|
    ensures forall i :: 0 <= i < |DigitFree(s)| ==> !IsDigit(DigitFree(s)[i])
    ensures (forall i :: 0 <= i < |s| ==> !IsDigit(s[i])) ==> DigitFree(s) == s
  {
    if s != [] {
      DigitFreeDropsDigits(s[..|s| - 1]);
    }
  }

  /** Every rune that is not a digit is kept, as often as it occurs in `s`. */
  lemma {:induction false} DigitFreeKeepsTheRest(s: string)
    ensures forall c :: !IsDigit(c) ==> multiset(DigitFree(s))[c] == multiset(s)[c]
  {
    if s != [] {
      var init, last := s[..|s| - 1], s[|s| - 1];
      DigitFreeKeepsTheRest(init);
      assert s == init + [last];
      assert multiset(s) == multiset(init) + multiset{last};
      var kept := if IsDigit(last) then [] else [last];
      assert DigitFree(s) == DigitFree(init) + kept;
      assert multiset(DigitFree(s)) == multiset(DigitFree(init)) + multiset(kept);
    }
  }

  /** `Numbers` on one node: a text node's data is trimmed, then its digits
      are dropped; nothing else changes. */
  function NumbersLabel(l: Label): Label
  {
    if l.kind == TextNode then l.(data := DigitFree(TrimSpace(l.data))) else l
  }

  /** `Attrs` on one node: an element's attribute list becomes empty. */
  function AttrsLabel(l: Label): Label
  {
    if l.kind == ElementNode then l.(attrs := []) else l
  }

  /** `HTML` on one node: a text node's trimmed data and one Newline. */
  function TextLine(l: Label): string
  {
    if l.kind == TextNode then TrimSpace(l.data) + Newline else ""
  }

  function NumbersTree(t: Tree): (u: Tree)
    ensures LabelOf(u) == NumbersLabel(LabelOf(t)) && |u.children| == |t.children|
    decreases t
  {
    Tree(t.kind, if t.kind == TextNode then DigitFree(TrimSpace(t.data)) else t.data, t.attrs,
         seq(|t.children|, i requires 0 <= i < |t.children| => NumbersTree(t.children[i])))
  }

  function AttrsTree(t: Tree): (u: Tree)
    ensures LabelOf(u) == AttrsLabel(LabelOf(t)) && |u.children| == |t.children|
    decreases t
  {
    Tree(t.kind, t.data, if t.kind == ElementNode then [] else t.attrs,
         seq(|t.children|, i requires 0 <= i < |t.children| => AttrsTree(t.children[i])))
  }

  /** The string `HTML` accumulates for a subtree. */
  function TextOf(t: Tree): string
    decreases t, 1
  {
    TextLine(LabelOf(t)) + Flatten(ChildTexts(t))
  }

  /** The strings of the subtrees of `t`'s children, in order. */
  function ChildTexts(t: Tree): (texts: seq<string>)
    ensures |texts| == |t.children|
    decreases t, 0
  {
    seq(|t.children|, i requires 0 <= i < |t.children| => TextOf(t.children[i]))
  }

  // ---------------------------------------------------------------------
  // The walkers: every node, in pre-order
  // ---------------------------------------------------------------------

  /** `Numbers` touches text nodes only: the pre-order labels of the result
      are those of the input, each passed through NumbersLabel. */
  lemma {:induction false} NumbersOnlyTouchesText(t: Tree)
    ensures Labels(NumbersTree(t)) == MapSeq(Labels(t), NumbersLabel)
    decreases t
  {
    var u := NumbersTree(t);
    var ss := seq(|t.children|, i requires 0 <= i < |t.children| => Labels(t.children[i]));
    var us := seq(|u.children|, i requires 0 <= i < |u.children| => Labels(u.children[i]));
    forall i | 0 <= i < |ss|
      ensures us[i] == MapSeq(ss[i], NumbersLabel)
    {
      NumbersOnlyTouchesText(t.children[i]);
    }
    MapFlatten(ss, NumbersLabel, us);
    assert MapSeq([LabelOf(t)] + Flatten(ss), NumbersLabel)
        == [NumbersLabel(LabelOf(t))] + MapSeq(Flatten(ss), NumbersLabel);
  }

  /** `Attrs` empties the attribute list of every element node and leaves
      every other part of every node alone. */
  lemma {:induction false} AttrsOnlyTouchesElements(t: Tree)
    ensures Labels(AttrsTree(t)) == MapSeq(Labels(t), AttrsLabel)
    decreases t
  {
    var u := AttrsTree(t);
    var ss := seq(|t.children|, i requires 0 <= i < |t.children| => Labels(t.children[i]));
    var us := seq(|u.children|, i requires 0 <= i < |u.children| => Labels(u.children[i]));
    forall i | 0 <= i < |ss|
      ensures us[i] == MapSeq(ss[i], AttrsLabel)
    {
      AttrsOnlyTouchesElements(t.children[i]);
    }
    MapFlatten(ss, AttrsLabel, us);
    assert MapSeq([LabelOf(t)] + Flatten(ss), AttrsLabel)
        == [AttrsLabel(LabelOf(t))] + MapSeq(Flatten(ss), AttrsLabel);
  }

  /** `HTML` yields, in document order, each text node's trimmed data followed
      by one Newline, and nothing for other nodes. */
  lemma {:induction false} TextIsLinesInPreOrder(t: Tree)
    ensures TextOf(t) == Flatten(MapSeq(Labels(t), TextLine))
    decreases t
  {
    var ss := seq(|t.children|, i requires 0 <= i < |t.children| => Labels(t.children[i]));
    var texts := ChildTexts(t);
    var lines := seq(|t.children|, i requires 0 <= i < |t.children| => MapSeq(ss[i], TextLine));
    forall i | 0 <= i < |ss|
      ensures texts[i] == Flatten(lines[i])
    {
      TextIsLinesInPreOrder(t.children[i]);
    }
    FlattenFlatten(lines, texts);
    MapFlatten(ss, TextLine, lines);
    assert Labels(t) == [LabelOf(t)] + Flatten(ss);
    MapAppend([LabelOf(t)], Flatten(ss), TextLine);
    assert MapSeq([LabelOf(t)], TextLine) == [TextLine(LabelOf(t))];
    FlattenAppend([TextLine(LabelOf(t))], MapSeq(Flatten(ss), TextLine));
    FlattenSingle(TextLine(LabelOf(t)));
  }

  // ---------------------------------------------------------------------
  // The filters on node objects
  // ---------------------------------------------------------------------

  /** The inner rune loop of `Numbers`. */
  method DropDigits(text: string) returns (newSel: string)
    ensures newSel == DigitFree(text)
  {
    newSel := "";
    var i := 0;
    while i < |text|
      invariant 0 <= i <= |text|
      invariant newSel == DigitFree(text[..i])
    {
      assert text[..i + 1][..i] == text[..i];
      if !IsDigit(text[i]) {
        newSel := newSel + [text[i]];
      }
      i := i + 1;
    }
    assert text[..i] == text;
  }

  /** The recursive closure of `Numbers`. */
  method NumbersWalk(node: Node)
    requires node.Valid()
    modifies node.Repr
    ensures node.Valid() && node.Repr == old(node.Repr)
    ensures node.tree == NumbersTree(old(node.tree))
    decreases node.Repr, 2
  {
    if node.kind == TextNode {
      NumbersText(node);
    }
    NumbersChildren(node);
  }

  /** The sibling loop of `Numbers`: every child's subtree, first to last. */
  method NumbersChildren(node: Node)
    requires node.Valid()
    modifies node.Repr
    ensures node.Valid() && node.Repr == old(node.Repr)
    ensures LabelOf(node.tree) == LabelOf(old(node.tree))
    ensures |node.tree.children| == |old(node.tree).children|
    ensures forall k :: 0 <= k < |node.tree.children| ==>
      node.tree.children[k] == NumbersTree(old(node.tree).children[k])
    decreases node.Repr, 1
  {
    ghost var t0 := node.tree;
    var i := 0;
    while i < |node.children|
      invariant 0 <= i <= |node.children|
      invariant node.Valid() && node.Repr == old(node.Repr)
      invariant LabelOf(node.tree) == LabelOf(t0)
      invariant |node.tree.children| == |t0.children|
      invariant forall k :: 0 <= k < i ==> node.tree.children[k] == NumbersTree(t0.children[k])
      invariant forall k :: i <= k < |node.children| ==> node.tree.children[k] == t0.children[k]
    {
      NumbersChild(node, i);
      i := i + 1;
    }
  }

  /** The body of `Numbers` for a text node: its data, trimmed, without digits. */
  method NumbersText(node: Node)
    requires node.Valid() && node.kind == TextNode
    modifies node
    ensures node.Valid() && node.Repr == old(node.Repr) && node.children == old(node.children)
    ensures node.tree == old(node.tree).(data := DigitFree(TrimSpace(old(node.data))))
  {
    var text := TrimSpace(node.data);
    var newSel := DropDigits(text);
    node.data := newSel;
    node.tree := node.tree.(data := newSel);
  }

  /** One turn of the sibling loop of `Numbers`: the walk of child `i`. */
  method NumbersChild(node: Node, i: nat)
    requires node.Valid() && i < |node.children|
    modifies node.Repr
    ensures node.Valid() && node.Repr == old(node.Repr) && node.children == old(node.children)
    ensures node.tree == old(node.tree).(children := old(node.tree).children[i := NumbersTree(old(node.tree).children[i])])
    decreases node.Repr, 0
  {
    var c := node.children[i];
    ghost var t0 := node.tree;
    assert forall j :: 0 <= j < |node.children| && j != i ==> node.children[j].Repr !! c.Repr;
    NumbersWalk(c);
    assert forall j :: 0 <= j < |node.children| && j != i ==>
      node.children[j].Valid() && node.children[j].tree == t0.children[j];
    node.tree := node.tree.(children := node.tree.children[i := c.tree]);
  }

  /** strip.Numbers: drops the digits of every text node of `doc`, in place,
      and renders the result. */
  method Numbers(doc: Node, renderClean: Tree -> string) returns (newSel: string)
    requires doc.Valid()
    modifies doc.Repr
    ensures doc.Valid() && doc.Repr == old(doc.Repr)
    ensures doc.tree == NumbersTree(old(doc.tree))
    ensures newSel == renderClean(doc.tree)
  {
    NumbersWalk(doc);
    var t := Snapshot(doc);
    newSel := renderClean(t);
  }

  /** The recursive closure of `Attrs`. */
  method AttrsWalk(node: Node)
    requires node.Valid()
    modifies node.Repr
    ensures node.Valid() && node.Repr == old(node.Repr)
    ensures node.tree == AttrsTree(old(node.tree))
    decreases node.Repr, 2
  {
    if node.kind == ElementNode {
      node.attr := [];
      node.tree := node.tree.(attrs := []);
    }
    AttrsChildren(node);
  }

  /** The sibling loop of `Attrs`: every child's subtree, first to last. */
  method AttrsChildren(node: Node)
    requires node.Valid()
    modifies node.Repr
    ensures node.Valid() && node.Repr == old(node.Repr)
    ensures LabelOf(node.tree) == LabelOf(old(node.tree))
    ensures |node.tree.children| == |old(node.tree).children|
    ensures forall k :: 0 <= k < |node.tree.children| ==>
      node.tree.children[k] == AttrsTree(old(node.tree).children[k])
    decreases node.Repr, 1
  {
    ghost var t0 := node.tree;
    var i := 0;
    while i < |node.children|
      invariant 0 <= i <= |node.children|
      invariant node.Valid() && node.Repr == old(node.Repr)
      invariant LabelOf(node.tree) == LabelOf(t0)
      invariant |node.tree.children| == |t0.children|
      invariant forall k :: 0 <= k < i ==> node.tree.children[k] == AttrsTree(t0.children[k])
      invariant forall k :: i <= k < |node.children| ==> node.tree.children[k] == t0.children[k]
    {
      AttrsChild(node, i);
      i := i + 1;
    }
  }

  /** One turn of the sibling loop of `Attrs`: the walk of child `i`. */
  method AttrsChild(node: Node, i: nat)
    requires node.Valid() && i < |node.children|
    modifies node.Repr
    ensures node.Valid() && node.Repr == old(node.Repr) && node.children == old(node.children)
    ensures node.tree == old(node.tree).(children := old(node.tree).children[i := AttrsTree(old(node.tree).children[i])])
    decreases node.Repr, 0
  {
    var c := node.children[i];
    ghost var t0 := node.tree;
    assert forall j :: 0 <= j < |node.children| && j != i ==> node.children[j].Repr !! c.Repr;
    AttrsWalk(c);
    assert forall j :: 0 <= j < |node.children| && j != i ==>
      node.children[j].Valid() && node.children[j].tree == t0.children[j];
    node.tree := node.tree.(children := node.tree.children[i := c.tree]);
  }

  /** strip.Attrs: empties the attribute list of every element of `doc`, in
      place, and renders the result. */
  method Attrs(doc: Node, renderClean: Tree -> string) returns (newSel: string)
    requires doc.Valid()
    modifies doc.Repr
    ensures doc.Valid() && doc.Repr == old(doc.Repr)
    ensures doc.tree == AttrsTree(old(doc.tree))
    ensures newSel == renderClean(doc.tree)
  {
    AttrsWalk(doc);
    var t := Snapshot(doc);
    newSel := renderClean(t);
  }

  /** The recursive closure of `HTML`, appending to the string `acc` that the
      source passes by pointer. */
  method TextWalk(node: Node, acc: string) returns (out: string)
    requires node.Valid()
    ensures out == acc + TextOf(node.tree)
    decreases node.Repr, 1
  {
    var line := TextLine(Label(node.kind, node.data, node.attr));
    out := TextChildren(node, acc + line);
    AppendAssoc(acc, line, Flatten(ChildTexts(node.tree)));
  }

  /** The sibling loop of `HTML`: each child's text, first to last. */
  method TextChildren(node: Node, acc: string) returns (out: string)
    requires node.Valid()
    ensures out == acc + Flatten(ChildTexts(node.tree))
    decreases node.Repr, 0
  {
    ghost var texts := ChildTexts(node.tree);
    out := acc;
    var i := 0;
    while i < |node.children|
      invariant 0 <= i <= |node.children| == |texts|
      invariant out == acc + Flatten(texts[..i])
    {
      var c := node.children[i];
      ChildOf(node, i);
      assert texts[i] == TextOf(c.tree);
      assert texts[..i + 1][..i] == texts[..i];
      AppendAssoc(acc, Flatten(texts[..i]), texts[i]);
      out := TextWalk(c, out);
      i := i + 1;
    }
    assert texts[..i] == texts;
  }

  /** strip.HTML: the text of `doc` without markup, one line per text node. */
  method HTML(doc: Node) returns (newSel: string)
    requires doc.Valid()
    ensures newSel == Flatten(MapSeq(Labels(doc.tree), TextLine))
  {
    newSel := TextWalk(doc, "");
    TextIsLinesInPreOrder(doc.tree);
  }

  // ---------------------------------------------------------------------
  // The cases of strip/strip_test.go
  // ---------------------------------------------------------------------

  /** Trimming comes first, so the space before the digits survives: the
      title "Number test 12345" becomes "Number test ". */
  lemma NumbersKeepsSpaceBeforeDigits()
    ensures DigitFree(TrimSpace("Number test 12345")) == "Number test "
  {
    var s, words, digits := "Number test 12345", "Number test ", "12345";
    assert !IsSpace(s[0]) && !IsSpace(s[|s| - 1]);
    TrimSpaceFacts(s);
    assert s == words + digits;
    DigitFreeSplit(words, digits);
    WordsHaveNoDigits();
    DigitFreeDropsDigits(words);
    DigitsAreDigits();
    AllDigitsVanish(digits);
  }

  lemma WordsHaveNoDigits()
    ensures forall i :: 0 <= i < |"Number test "| ==> !IsDigit("Number test "[i])
  {
    forall i | 0 <= i < |"Number test "| ensures !IsDigit("Number test "[i]) {
      AsciiDigit("Number test "[i]);
    }
  }

  lemma DigitsAreDigits()
    ensures forall i :: 0 <= i < |"12345"| ==> IsDigit("12345"[i])
  {
    forall i | 0 <= i < |"12345"| ensures IsDigit("12345"[i]) {
      AsciiDigit("12345"[i]);
    }
  }

  lemma {:induction false} DigitFreeSplit(a: string, b: string)
    ensures DigitFree(a + b) == DigitFree(a) + DigitFree(b)
    decreases |b|
  {
    if b == [] {
      assert a + b == a;
    } else {
      assert (a + b)[..|a + b| - 1] == a + b[..|b| - 1];
      DigitFreeSplit(a, b[..|b| - 1]);
    }
  }

  lemma {:induction false} AllDigitsVanish(s: string)
    requires forall i :: 0 <= i < |s| ==> IsDigit(s[i])
    ensures DigitFree(s) == ""
  {
    if s != [] {
      AllDigitsVanish(s[..|s| - 1]);
    }
  }
}

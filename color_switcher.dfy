/**
 The accent colour switcher (script.js, accentColors, initColorSwitcher and
 updateAccentColor).

 A toggle cycles an index over a fixed palette of three colour names. Each
 change writes the body's class, the `--accent` custom property, the custom
 cursor's border colour (when the cursor element exists) and a stylesheet
 with id `accent-style` in the document head, which replaces the previous one.

 The head is modelled as the sequence of its children, each with its id and
 the accent colour its rules use.
 */
module ColorSwitcher {

  /** The palette, in toggle order. */
  const Colors: seq<string> := ["blue", "purple", "emerald"]

  /** The hex value of each colour name. */
  const AccentColors: map<string, string> :=
    map["blue" := "#3b82f6", "purple" := "#a855f7", "emerald" := "#10b981"]

  /** The accent selected when the page loads. */
  const InitialAccent: string := "blue"

  /** The id of the injected stylesheet. */
  const AccentStyleId: string := "accent-style"

  /** A child of the document head: its id and the accent colour it carries. */
  datatype HeadNode = HeadNode(id: string, accent: string)

  /** Position of the first occurrence of `x` in `xs`, or -1 when absent. */
  function IndexOf(xs: seq<string>, x: string): (i: int)
    ensures -1 <= i < |xs|
    ensures i >= 0 ==> xs[i] == x && forall k :: 0 <= k < i ==> xs[k] != x
    ensures i == -1 <==> x !in xs
  {
    if xs == [] then -1
    else if xs[0] == x then 0
    else
      var j := IndexOf(xs[1..], x);
      if j < 0 then -1 else j + 1
  }

  /** The index after one click of the toggle. */
  function NextIndex(i: int): int
    requires -1 <= i
  {
    (i + 1) % |Colors|
  }

  /** The index after `n` clicks, starting from `i`. */
  function IndexAfterClicks(i: int, n: nat): int
    requires -1 <= i
  {
    if n == 0 then i else NextIndex(IndexAfterClicks(i, n - 1))
  }

  /** From any valid index, `n` clicks advance it by `n` places around the
      palette. */
  lemma {:induction false} ClicksAdvance(i: int, n: nat)
    requires 0 <= i < |Colors|
    ensures IndexAfterClicks(i, n) == (i + n) % |Colors|
  {
    if n > 0 {
      ClicksAdvance(i, n - 1);
      var m := i + n - 1;
      assert m == 3 * (m / 3) + m % 3;
      if m % 3 < 2 {
        assert m + 1 == 3 * (m / 3) + (m % 3 + 1);
      } else {
        assert m + 1 == 3 * (m / 3 + 1);
      }
    }
  }

  /** Three clicks come back to the starting accent, and on the way every
      colour of the palette is shown exactly once. */
  lemma ThreeClicksCycle(i: int)
    requires 0 <= i < |Colors|
    ensures IndexAfterClicks(i, 3) == i
    ensures {Colors[IndexAfterClicks(i, 1)], Colors[IndexAfterClicks(i, 2)], Colors[IndexAfterClicks(i, 3)]}
      == set c | c in Colors
  {
    ClicksAdvance(i, 1);
    ClicksAdvance(i, 2);
    ClicksAdvance(i, 3);
  }

  /** Number of head children with the given id. */
  function CountId(head: seq<HeadNode>, id: string): nat
  {
    if head == [] then 0
    else (if head[0].id == id then 1 else 0) + CountId(head[1..], id)
  }

  /** The head children whose id differs from `id`, in order. */
  function Others(head: seq<HeadNode>, id: string): seq<HeadNode>
  {
    if head == [] then []
    else (if head[0].id == id then [] else [head[0]]) + Others(head[1..], id)
  }

  lemma {:induction false} OthersAppend(a: seq<HeadNode>, b: seq<HeadNode>, id: string)
    ensures Others(a + b, id) == Others(a, id) + Others(b, id)
    ensures CountId(a + b, id) == CountId(a, id) + CountId(b, id)
  {
    if a == [] {
      assert a + b == b;
    } else {
      assert (a + b)[1..] == a[1..] + b;
      OthersAppend(a[1..], b, id);
    }
  }

  /** Position of the first head child with the given id, or -1 when there is
      none: the element a lookup by id finds. */
  function FirstWithId(head: seq<HeadNode>, id: string): (k: int)
    ensures -1 <= k < |head|
    ensures k >= 0 ==> head[k].id == id && forall j :: 0 <= j < k ==> head[j].id != id
    ensures k == -1 <==> CountId(head, id) == 0
  {
    if head == [] then -1
    else if head[0].id == id then 0
    else
      var j := FirstWithId(head[1..], id);
      if j < 0 then -1 else j + 1
  }

  /** Looking up the element by id and removing it: the first child with that
      id goes, every other child stays, in order. */
  function RemoveFirstWithId(head: seq<HeadNode>, id: string): (r: seq<HeadNode>)
    ensures CountId(head, id) == 0 ==> r == head
    ensures CountId(head, id) > 0 ==> |r| == |head| - 1 && CountId(r, id) == CountId(head, id) - 1
    ensures Others(r, id) == Others(head, id)
  {
    if head == [] then []
    else if head[0].id == id then head[1..]
    else [head[0]] + RemoveFirstWithId(head[1..], id)
  }

  /** The child removed is the first one with the id, the one a lookup by id
      finds: the result is the head with exactly that position cut out. */
  lemma {:induction false} RemovesFirstMatch(head: seq<HeadNode>, id: string)
    requires FirstWithId(head, id) >= 0
    ensures RemoveFirstWithId(head, id)
      == head[..FirstWithId(head, id)] + head[FirstWithId(head, id) + 1..]
  {
    if head[0].id != id {
      var k := FirstWithId(head[1..], id);
      RemovesFirstMatch(head[1..], id);
      assert head[1..][..k] == head[1..k + 1];
      assert head[1..][k + 1..] == head[k + 2..];
      assert [head[0]] + head[1..k + 1] == head[..k + 1];
    }
  }

  /** Replacing the accent stylesheet by `style`: cut out the first one, if
      any, and append `style`. At least one remains (exactly one when there
      was at most one), and the other children are kept in order. */
  lemma ReplaceStyle(head: seq<HeadNode>, style: HeadNode)
    requires style.id == AccentStyleId
    ensures var r := RemoveFirstWithId(head, AccentStyleId) + [style];
      && CountId(r, AccentStyleId) == (if CountId(head, AccentStyleId) == 0 then 1 else CountId(head, AccentStyleId))
      && Others(r, AccentStyleId) == Others(head, AccentStyleId)
      && (FirstWithId(head, AccentStyleId) >= 0 ==>
            var k := FirstWithId(head, AccentStyleId);
            r == head[..k] + head[k + 1..] + [style])
  {
    var rest := RemoveFirstWithId(head, AccentStyleId);
    OthersAppend(rest, [style], AccentStyleId);
    var k := FirstWithId(head, AccentStyleId);
    if k >= 0 {
      RemovesFirstMatch(head, AccentStyleId);
    }
  }

  /** The page's colour state. `currentAccent` is module-level in the page,
      `currentIndex` belongs to the toggle's click handler. */
  class Switcher {
    var currentIndex: int
    var currentAccent: string
    /** The class attribute of the body element. */
    var bodyClass: string
    /** The `--accent` custom property of the document element. */
    var accentVar: string
    /** Whether the custom cursor element exists. */
    const cursorPresent: bool
    var cursorBorder: string
    var head: seq<HeadNode>

    /** The index is in the palette, the accent is its colour, and every place
        the accent is written shows that colour; the last child of the head
        is the accent stylesheet. */
    ghost predicate Valid()
      reads this
    {
      && 0 <= currentIndex < |Colors|
      && currentAccent == Colors[currentIndex]
      && currentAccent in AccentColors
      && bodyClass == "accent-" + currentAccent
      && accentVar == AccentColors[currentAccent]
      && (cursorPresent ==> cursorBorder == accentVar)
      && |head| > 0
      && head[|head| - 1] == HeadNode(AccentStyleId, accentVar)
      && CountId(head, AccentStyleId) >= 1
    }

    /** Setting up the switcher on a page whose head is `head0`: the initial
        accent is applied. A head without an accent stylesheet ends up with
        exactly one. */
    constructor (head0: seq<HeadNode>, cursorPresent: bool, cursorBorder0: string)
      ensures Valid()
      ensures currentAccent == InitialAccent && currentIndex == 0
      ensures this.cursorPresent == cursorPresent
      ensures !cursorPresent ==> cursorBorder == cursorBorder0
      ensures CountId(head, AccentStyleId) == if CountId(head0, AccentStyleId) == 0 then 1 else CountId(head0, AccentStyleId)
      ensures Others(head, AccentStyleId) == Others(head0, AccentStyleId)
      ensures head == RemoveFirstWithId(head0, AccentStyleId) + [HeadNode(AccentStyleId, AccentColors[InitialAccent])]
    {
      this.cursorPresent := cursorPresent;
      cursorBorder := cursorBorder0;
      head := head0;
      currentAccent := InitialAccent;
      new;
      currentIndex := IndexOf(Colors, currentAccent);
      bodyClass := "accent-" + currentAccent;
      UpdateAccentColor(currentAccent);
    }

    /** Writes the hex value of `color` to the custom property, the cursor
        and a fresh accent stylesheet that replaces the old one. */
    method UpdateAccentColor(color: string)
      requires color in AccentColors
      modifies this`accentVar, this`cursorBorder, this`head
      ensures accentVar == AccentColors[color]
      ensures cursorBorder == if cursorPresent then accentVar else old(cursorBorder)
      ensures head == RemoveFirstWithId(old(head), AccentStyleId) + [HeadNode(AccentStyleId, accentVar)]
      ensures FirstWithId(old(head), AccentStyleId) >= 0 ==>
        var k := FirstWithId(old(head), AccentStyleId);
        head == old(head)[..k] + old(head)[k + 1..] + [HeadNode(AccentStyleId, accentVar)]
      ensures CountId(head, AccentStyleId) == if CountId(old(head), AccentStyleId) == 0 then 1 else CountId(old(head), AccentStyleId)
      ensures Others(head, AccentStyleId) == Others(old(head), AccentStyleId)
    {
      var accent := AccentColors[color];
      accentVar := accent;
      if cursorPresent {
        cursorBorder := accent;
      }
      var style := HeadNode(AccentStyleId, accent);
      ReplaceStyle(head, style);
      head := RemoveFirstWithId(head, AccentStyleId) + [style];
    }

    /** A click on the toggle: the next colour of the palette is applied. */
    method Click()
      requires Valid()
      modifies this`currentIndex, this`currentAccent, this`bodyClass, this`accentVar, this`cursorBorder, this`head
      ensures Valid()
      ensures currentIndex == NextIndex(old(currentIndex))
      ensures currentAccent == Colors[currentIndex]
      ensures !cursorPresent ==> cursorBorder == old(cursorBorder)
      ensures head == RemoveFirstWithId(old(head), AccentStyleId) + [HeadNode(AccentStyleId, accentVar)]
      ensures CountId(head, AccentStyleId) == CountId(old(head), AccentStyleId)
      ensures Others(head, AccentStyleId) == Others(old(head), AccentStyleId)
    {
      currentIndex := (currentIndex + 1) % |Colors|;
      currentAccent := Colors[currentIndex];
      bodyClass := "accent-" + currentAccent;
      UpdateAccentColor(currentAccent);
    }
  }
}

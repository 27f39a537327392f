/**
 * What the two memorial-card renderers share: the record dictionary they
 * are handed, the fonts, the layout constants, the outside world they
 * depend on (canvas width, which files load, how wide a text is), and the
 * draw commands they issue instead of pixels.
 */
module Drawing {
  import opened PyStr
  import opened TextWrap

  /** A value of the record dictionary: a string, `None`, or a list of strings. */
  datatype Value = NoneVal | Str(s: string) | List(items: seq<string>)

  type CardData = map<string, Value>

  /** Python truthiness: `None`, `""` and `[]` are false. */
  predicate Truthy(v: Value) {
    match v
    case NoneVal => false
    case Str(s) => s != []
    case List(items) => items != []
  }

  /** `data.get(key)` */
  function Get(data: CardData, key: string): Value {
    if key in data then data[key] else NoneVal
  }

  /** `data.get(key, default)` */
  function GetOr(data: CardData, key: string, default: Value): Value {
    if key in data then data[key] else default
  }

  /** `f"{v}"` for a string or `None`. */
  function Format(v: Value): string
    requires !v.List?
  {
    match v
    case NoneVal => "None"
    case Str(s) => s
  }

  /**
   * The dictionaries the renderers document: every field is a string or
   * `None`, except "awards", which may also be a list of strings.
   */
  predicate WellFormed(data: CardData) {
    forall k :: k in data && k != "awards" ==> !data[k].List?
  }

  datatype Font = Font(size: nat)

  const TitleFont := Font(40)
  const SubtitleFont := Font(25)
  const TextFont := Font(22)

  /** The horizontal extent (`bbox[0]`, `bbox[2]`) of `draw.textbbox((0, 0), text, font)`. */
  datatype BBox = BBox(left: int, right: int)

  /**
   * What a render depends on besides the record: the width of the
   * background image, which paths an image can be opened from, and the
   * bounding boxes Pillow measures.
   */
  datatype Env = Env(canvasWidth: nat, loadable: string -> bool, textbbox: (Font, string) -> BBox)

  /** A text drawn with its top-left corner at (x, y), or an image pasted at (x, y). */
  datatype DrawOp =
    | Text(x: int, y: int, text: string, font: Font)
    | Paste(source: string, x: int, y: int, w: nat, h: nat)

  /** The draw commands of a card, in order, and where the text cursor ended. */
  datatype Card = Card(ops: seq<DrawOp>, cursor: int)

  datatype RenderError =
    | BackgroundMissing   // the background image cannot be opened
    | PhotoMissing        // neither the photo nor the default photo can be opened
    | KeyMissing(key: string)  // `data[key]` raised KeyError
    | BadText             // a `None` reached Pillow or `str.join`

  datatype RenderResult = Rendered(card: Card) | Failed(error: RenderError)

  // Layout constants common to both renderers.
  const WrapWidth: nat := 40
  const TitleY := 30
  const DateY := 80
  const PhotoY := 130
  const PhotoWidth: nat := 250
  const PhotoHeight: nat := 300
  const TextX := 50
  const TextTop := 450
  const DateSeparator := " – "
  const DescriptionLabel := "Описание: "
  const BurialLabel := "Место захоронения: "
  const AwardsLabel := "Награды: "
  const MilitaryLabel := "Участие в военных событиях: "

  /**
   * The background image being drawn on: what has been drawn or pasted
   * so far, in order.
   */
  class Canvas {
    const width: nat
    var ops: seq<DrawOp>

    constructor (width: nat)
      ensures this.width == width && ops == []
    {
      this.width := width;
      ops := [];
    }

    /** `draw.text((x, y), text, font=font)` */
    method DrawText(x: int, y: int, text: string, font: Font)
      modifies this
      ensures ops == old(ops) + [Text(x, y, text, font)]
    {
      ops := ops + [Text(x, y, text, font)];
    }

    /** `background.paste(photo, (x, y))` for a photo of w by h pixels. */
    method PastePhoto(source: string, x: int, y: int, w: nat, h: nat)
      modifies this
      ensures ops == old(ops) + [Paste(source, x, y, w, h)]
    {
      ops := ops + [Paste(source, x, y, w, h)];
    }
  }

  /** The vertical advance per wrapped line: `font.size + 5`. */
  function LineStep(font: Font): nat {
    font.size + 5
  }

  /** Lines drawn one below the other, and the y just below the last one. */
  datatype Column = Column(ops: seq<DrawOp>, bottom: int)

  /** `lines` drawn from (x, y) downwards, one `LineStep(font)` apart. */
  function LinesAt(x: int, y: int, lines: seq<string>, font: Font): (c: Column)
    ensures |c.ops| == |lines|
    ensures c.bottom == y + |lines| * LineStep(font)
    decreases |lines|
  {
    if lines == [] then Column([], y)
    else
      var below := LinesAt(x, y + LineStep(font), lines[1..], font);
      Column([Text(x, y, lines[0], font)] + below.ops, below.bottom)
  }

  /**
   * Where the lines land: line i at (x, y + i * LineStep(font)), and the
   * cursor ends `|lines|` steps below y.
   */
  lemma {:induction false} LinesAtGeometry(x: int, y: int, lines: seq<string>, font: Font)
    ensures LinesAt(x, y, lines, font).bottom == y + |lines| * LineStep(font)
    ensures forall i :: 0 <= i < |lines| ==>
      LinesAt(x, y, lines, font).ops[i] == Text(x, y + i * LineStep(font), lines[i], font)
    decreases |lines|
  {
    if lines != [] {
      var step := LineStep(font);
      LinesAtGeometry(x, y + step, lines[1..], font);
      var c := LinesAt(x, y, lines, font);
      var below := LinesAt(x, y + step, lines[1..], font);
      assert |lines| * step == step + (|lines| - 1) * step;
      forall i | 0 <= i < |lines|
        ensures c.ops[i] == Text(x, y + i * step, lines[i], font)
      {
        if i > 0 {
          assert c.ops[i] == below.ops[i - 1];
          assert lines[1..][i - 1] == lines[i];
          assert y + i * step == (y + step) + (i - 1) * step;
        }
      }
    }
  }

  /**
   * One step of a loop that draws `lines` from (x, y): when the commands
   * drawn so far followed by the lines still to do make up the whole
   * column, they still do after the next line is drawn one step lower.
   */
  lemma DrawNextLine(start: seq<DrawOp>, x: int, y: int, lines: seq<string>, font: Font,
                     drawn: seq<DrawOp>, yEnd: int, todo: seq<string>,
                     drawn': seq<DrawOp>, yEnd': int, todo': seq<string>)
    requires todo != []
    requires start + LinesAt(x, y, lines, font).ops == drawn + LinesAt(x, yEnd, todo, font).ops
    requires LinesAt(x, y, lines, font).bottom == LinesAt(x, yEnd, todo, font).bottom
    requires drawn' == drawn + [Text(x, yEnd, todo[0], font)] && yEnd' == yEnd + font.size + 5 && todo' == todo[1..]
    ensures start + LinesAt(x, y, lines, font).ops == drawn' + LinesAt(x, yEnd', todo', font).ops
    ensures LinesAt(x, y, lines, font).bottom == LinesAt(x, yEnd', todo', font).bottom
  {
    AppendAssoc(drawn, [Text(x, yEnd, todo[0], font)], LinesAt(x, yEnd', todo', font).ops);
  }

  /** A card drawn as `head` and then a column starts with `head`. */
  lemma StartsWith(card: Card, head: seq<DrawOp>, column: Column)
    requires card == Card(head + column.ops, column.bottom)
    ensures |card.ops| >= |head| && forall i :: 0 <= i < |head| ==> card.ops[i] == head[i]
  {
  }

  /**
   * Drawing `a + b` from y is drawing `a` from y and then `b` from where
   * `a` left the cursor.
   */
  lemma {:induction false} LinesAtAppend(x: int, y: int, a: seq<string>, b: seq<string>, font: Font)
    ensures var first := LinesAt(x, y, a, font);
      var second := LinesAt(x, first.bottom, b, font);
      LinesAt(x, y, a + b, font) == Column(first.ops + second.ops, second.bottom)
    decreases |a|
  {
    if a == [] {
      assert a + b == b;
    } else {
      LinesAtAppend(x, y + LineStep(font), a[1..], b, font);
      assert (a + b)[0] == a[0];
      assert (a + b)[1..] == a[1..] + b;
    }
  }

  /**
   * The lines of text blocks drawn one below the other, each wrapped by
   * `wrap_text` at `WrapWidth` characters. No line is longer than that.
   */
  function Stack(blocks: seq<string>): (lines: seq<string>)
    ensures forall i :: 0 <= i < |lines| ==> |lines[i]| <= WrapWidth
  {
    if blocks == [] then []
    else Stack(blocks[..|blocks| - 1]) + WrapParagraphs(blocks[|blocks| - 1], WrapWidth)
  }

  /**
   * A text block wrapped by `wrap_text` and drawn from (x, above.bottom),
   * below the column `above`.
   */
  function Then(above: Column, x: int, text: string, font: Font): Column {
    var block := LinesAt(x, above.bottom, WrapParagraphs(text, WrapWidth), font);
    Column(above.ops + block.ops, block.bottom)
  }

  /** Text blocks drawn one after the other below the column `above`. */
  function Blocks(above: Column, x: int, texts: seq<string>, font: Font): Column {
    if texts == [] then above
    else Then(Blocks(above, x, texts[..|texts| - 1], font), x, texts[|texts| - 1], font)
  }

  lemma BlocksSnoc(above: Column, x: int, texts: seq<string>, text: string, font: Font)
    ensures Blocks(above, x, texts + [text], font) == Then(Blocks(above, x, texts, font), x, text, font)
  {
    var all := texts + [text];
    assert all[..|all| - 1] == texts;
  }

  /** A block drawn below a column does not depend on what was drawn before that column. */
  lemma ThenShift(prefix: seq<DrawOp>, c: Column, x: int, text: string, font: Font)
    ensures var below := Then(c, x, text, font);
      Then(Column(prefix + c.ops, c.bottom), x, text, font) == Column(prefix + below.ops, below.bottom)
  {
    var block := LinesAt(x, c.bottom, WrapParagraphs(text, WrapWidth), font);
    assert (prefix + c.ops) + block.ops == prefix + (c.ops + block.ops);
  }

  /**
   * Drawing the blocks one after the other below `above` draws the column
   * of all their lines from where `above` left the cursor.
   */
  lemma {:induction false} BlocksAreStack(above: Column, x: int, texts: seq<string>, font: Font)
    ensures var lines := LinesAt(x, above.bottom, Stack(texts), font);
      Blocks(above, x, texts, font) == Column(above.ops + lines.ops, lines.bottom)
  {
    if texts == [] {
      assert above.ops + [] == above.ops;
    } else {
      var init, last := texts[..|texts| - 1], texts[|texts| - 1];
      BlocksAreStack(above, x, init, font);
      var first := LinesAt(x, above.bottom, Stack(init), font);
      ThenShift(above.ops, first, x, last, font);
      LinesAtAppend(x, above.bottom, Stack(init), WrapParagraphs(last, WrapWidth), font);
    }
  }

  /** The stacked lines hold exactly the visible characters of the blocks, in order. */
  lemma {:induction false} StackNonBlank(blocks: seq<string>)
    ensures NonBlank(Concat(Stack(blocks))) == NonBlank(Concat(blocks))
  {
    if blocks != [] {
      var init, last := blocks[..|blocks| - 1], blocks[|blocks| - 1];
      assert blocks == init + [last];
      StackNonBlank(init);
      WrapParagraphsNonBlank(last, WrapWidth);
      ConcatAppend(Stack(init), WrapParagraphs(last, WrapWidth));
      NonBlankAppend(Concat(Stack(init)), Concat(WrapParagraphs(last, WrapWidth)));
      ConcatAppend(init, [last]);
      ConcatSingle(last);
      NonBlankAppend(Concat(init), last);
    }
  }

  /** Blocks that each hold a visible character give at least one line each. */
  lemma {:induction false} StackHasLinePerBlock(blocks: seq<string>)
    requires forall i :: 0 <= i < |blocks| ==> NonBlank(blocks[i]) != []
    ensures |Stack(blocks)| >= |blocks|
  {
    if blocks != [] {
      var init, last := blocks[..|blocks| - 1], blocks[|blocks| - 1];
      StackHasLinePerBlock(init);
      VisibleTextHasLines(last, WrapWidth);
    }
  }

  /** `s` begins with `tag`. */
  predicate Labelled(s: string, tag: string) {
    |tag| <= |s| && s[..|tag|] == tag
  }

  /** A label that starts with a visible character, followed by any text, has one and begins with the label. */
  lemma VisibleHead(s: string, t: string)
    requires s != [] && !IsSpace(s[0])
    ensures NonBlank(s + t) != [] && Labelled(s + t, s)
  {
    assert (s + t)[0] == s[0];
  }
}

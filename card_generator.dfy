/**
 * The memorial-card renderer of card_generator.py: the title and the
 * date line centred at the top, the photo (or the placeholder) centred
 * below them, and the optional text blocks wrapped at 40 characters and
 * stacked from y = 450.
 */
module CardGenerator {
  import opened PyStr
  import opened TextWrap
  import opened Drawing

  const BackgroundPath := "static/images/background.jpg"
  const DefaultPhotoPath := "static/images/default_photo.jpg"
  const UnknownName := "Неизвестный"

  /** The fields that give an optional text block, in drawing order. */
  const BlockKeys := {"description", "burial_place", "awards", "military_service"}

  /** `wrap_text(text, width)`: split at "\n", wrap each paragraph, collect the lines. */
  method WrapText(text: string, width: nat) returns (lines: seq<string>)
    requires width >= 1
    ensures lines == WrapParagraphs(text, width)
  {
    var paragraphs := Split(text, '\n');
    lines := [];
    for i := 0 to |paragraphs|
      invariant lines == WrapAll(paragraphs[..i], width)
    {
      WrapAllPrefix(paragraphs, i, width);
      lines := lines + Wrap(paragraphs[i], width);
    }
    assert paragraphs[..|paragraphs|] == paragraphs;
  }

  /**
   * `draw_wrapped_text`: the wrapped lines drawn from (x, y) downwards;
   * the result is the y just below the last line.
   */
  method DrawWrappedText(canvas: Canvas, x: int, y: int, text: string, font: Font) returns (yEnd: int)
    modifies canvas
    ensures Column(canvas.ops, yEnd) == Then(Column(old(canvas.ops), y), x, text, font)
  {
    var lines := WrapText(text, WrapWidth);
    yEnd := y;
    var todo := lines;
    while todo != []
      invariant old(canvas.ops) + LinesAt(x, y, lines, font).ops == canvas.ops + LinesAt(x, yEnd, todo, font).ops
      invariant LinesAt(x, y, lines, font).bottom == LinesAt(x, yEnd, todo, font).bottom
    {
      ghost var drawn, yPrev, todoPrev := canvas.ops, yEnd, todo;
      canvas.DrawText(x, yEnd, todo[0], font);
      yEnd := yEnd + font.size + 5;
      todo := todo[1..];
      DrawNextLine(old(canvas.ops), x, y, lines, font, drawn, yPrev, todoPrev, canvas.ops, yEnd, todo);
    }
    assert canvas.ops + [] == canvas.ops;
  }

  /**
   * The photo that is pasted: the given path when it is set and opens,
   * otherwise the placeholder; `None` when the placeholder does not open
   * either.
   */
  function PhotoSource(data: CardData, loadable: string -> bool): (r: Option<string>)
    requires WellFormed(data)
    ensures var given := Get(data, "photo_path");
      && (r.Some? ==> loadable(r.value))
      && (r.Some? ==> r.value == DefaultPhotoPath || (Truthy(given) && r.value == given.s))
      && (Truthy(given) && loadable(given.s) ==> r == Some(given.s))
      && (r.None? <==> !loadable(DefaultPhotoPath) && !(Truthy(given) && loadable(given.s)))
  {
    var given := Get(data, "photo_path");
    var path := if Truthy(given) then given.s else DefaultPhotoPath;
    if loadable(path) then Some(path)
    else if loadable(DefaultPhotoPath) then Some(DefaultPhotoPath)
    else None
  }

  /** The date line: `"{birth} – {death}"` when either date is truthy. */
  function DateText(data: CardData): Option<string>
    requires WellFormed(data)
  {
    var birth := GetOr(data, "birth_date", Str(""));
    var death := GetOr(data, "death_date", Str(""));
    if Truthy(birth) || Truthy(death) then Some(Format(birth) + DateSeparator + Format(death))
    else None
  }

  /** The text of a block: its label and the field's value. */
  function BlockText(heading: string, v: Value): string {
    match v
    case List(items) => heading + Join(items, ", ")
    case Str(s) => heading + s
    case NoneVal => heading + "None"
  }

  /** The block of `key` when its field is truthy, else nothing. */
  function Block(data: CardData, key: string, heading: string): seq<string> {
    if Truthy(Get(data, key)) then [BlockText(heading, Get(data, key))] else []
  }

  /** The text blocks that are drawn, in order. */
  function BlockTexts(data: CardData): seq<string> {
    Block(data, "description", DescriptionLabel)
    + Block(data, "burial_place", BurialLabel)
    + Block(data, "awards", AwardsLabel)
    + Block(data, "military_service", MilitaryLabel)
  }

  /** The label of `key`'s block when its field is truthy, else nothing. */
  function Label(data: CardData, key: string, heading: string): seq<string> {
    if Truthy(Get(data, key)) then [heading] else []
  }

  /** The labels of the drawn blocks, in drawing order. */
  function DrawnLabels(data: CardData): seq<string> {
    Label(data, "description", DescriptionLabel)
    + Label(data, "burial_place", BurialLabel)
    + Label(data, "awards", AwardsLabel)
    + Label(data, "military_service", MilitaryLabel)
  }

  /** The column below `c` after the block of `key`, which is drawn only when its field is truthy. */
  function ThenIf(c: Column, data: CardData, key: string, heading: string): Column {
    if Truthy(Get(data, key)) then Then(c, TextX, BlockText(heading, Get(data, key)), TextFont) else c
  }

  /** The text blocks drawn below `above`, as the renderer goes through them. */
  function Body(above: Column, data: CardData): Column {
    var c := ThenIf(above, data, "description", DescriptionLabel);
    var c := ThenIf(c, data, "burial_place", BurialLabel);
    var c := ThenIf(c, data, "awards", AwardsLabel);
    ThenIf(c, data, "military_service", MilitaryLabel)
  }

  /** The x at which a text whose bounding box is `box` is centred. */
  function CenterX(width: int, box: BBox): (x: int)
    ensures -1 <= 2 * x + (box.right - box.left) - width <= 1
  {
    width / 2 - (box.right - box.left) / 2
  }

  /** The date line, centred at y = 80, when either date is truthy. */
  function DateLine(data: CardData, env: Env): seq<DrawOp>
    requires WellFormed(data)
  {
    match DateText(data)
    case None => []
    case Some(t) => [Text(CenterX(env.canvasWidth, env.textbbox(SubtitleFont, t)), DateY, t, SubtitleFont)]
  }

  /** The title, the date line when there is one, and the photo: what is drawn above the text blocks. */
  function Head(data: CardData, env: Env, photo: string, name: string): seq<DrawOp>
    requires WellFormed(data)
  {
    var w := env.canvasWidth;
    [Text(CenterX(w, env.textbbox(TitleFont, name)), TitleY, name, TitleFont)]
    + DateLine(data, env)
    + [Paste(photo, w / 2 - PhotoWidth / 2, PhotoY, PhotoWidth, PhotoHeight)]
  }

  /**
   * What `generate_memorial_card` draws, or why it stops. Every field is
   * read with `data.get`, so a missing key never stops it.
   */
  function Plan(data: CardData, env: Env): (r: RenderResult)
    requires WellFormed(data)
    ensures r.Failed? ==> !r.error.KeyMissing?
  {
    if !env.loadable(BackgroundPath) then Failed(BackgroundMissing)
    else match PhotoSource(data, env.loadable)
      case None => Failed(PhotoMissing)
      case Some(photo) =>
        var name := GetOr(data, "full_name", Str(UnknownName));
        if name.NoneVal? then Failed(BadText)
        else
          var page := Body(Column(Head(data, env, photo, name.s), TextTop), data);
          Rendered(Card(page.ops, page.bottom))
  }

  /** Lines 59-75 of `generate_memorial_card`: the title, the date line and the photo. */
  method DrawHead(canvas: Canvas, data: CardData, env: Env, photo: string, fullName: string)
    requires WellFormed(data) && canvas.width == env.canvasWidth
    modifies canvas
    ensures canvas.ops == old(canvas.ops) + Head(data, env, photo, fullName)
  {
    ghost var before := canvas.ops;
    var width := canvas.width;
    var bbox := env.textbbox(TitleFont, fullName);
    var titleX := width / 2 - (bbox.right - bbox.left) / 2;
    canvas.DrawText(titleX, TitleY, fullName, TitleFont);
    ghost var title := [Text(titleX, TitleY, fullName, TitleFont)];
    assert canvas.ops == before + title;

    var birthDate := GetOr(data, "birth_date", Str(""));
    var deathDate := GetOr(data, "death_date", Str(""));
    var dateText := if Truthy(birthDate) || Truthy(deathDate) then Format(birthDate) + DateSeparator + Format(deathDate) else "";
    if dateText != "" {
      bbox := env.textbbox(SubtitleFont, dateText);
      var dateX := width / 2 - (bbox.right - bbox.left) / 2;
      canvas.DrawText(dateX, DateY, dateText, SubtitleFont);
    }
    ghost var date := DateLine(data, env);
    assert canvas.ops == before + title + date;
    AppendAssoc(before, title, date);

    var photoX := width / 2 - PhotoWidth / 2;
    canvas.PastePhoto(photo, photoX, PhotoY, PhotoWidth, PhotoHeight);
    ghost var pasted := [Paste(photo, photoX, PhotoY, PhotoWidth, PhotoHeight)];
    AppendAssoc(before, title + date, pasted);
    assert Head(data, env, photo, fullName) == title + date + pasted;
  }

  /** Lines 78-93 of `generate_memorial_card`: the text blocks whose fields are truthy. */
  method DrawBody(canvas: Canvas, data: CardData) returns (textY: int)
    requires WellFormed(data)
    modifies canvas
    ensures Column(canvas.ops, textY) == Body(Column(old(canvas.ops), TextTop), data)
  {
    textY := TextTop;
    ghost var column := Column(canvas.ops, TextTop);

    var description := Get(data, "description");
    if Truthy(description) {
      textY := DrawWrappedText(canvas, TextX, textY, DescriptionLabel + Format(description), TextFont);
    }
    column := ThenIf(column, data, "description", DescriptionLabel);
    assert Column(canvas.ops, textY) == column;

    var burial := Get(data, "burial_place");
    if Truthy(burial) {
      textY := DrawWrappedText(canvas, TextX, textY, BurialLabel + Format(burial), TextFont);
    }
    column := ThenIf(column, data, "burial_place", BurialLabel);
    assert Column(canvas.ops, textY) == column;

    var awards := Get(data, "awards");
    if Truthy(awards) {
      var awardsText := if awards.List? then Join(awards.items, ", ") else awards.s;
      textY := DrawWrappedText(canvas, TextX, textY, AwardsLabel + awardsText, TextFont);
    }
    column := ThenIf(column, data, "awards", AwardsLabel);
    assert Column(canvas.ops, textY) == column;

    var military := Get(data, "military_service");
    if Truthy(military) {
      textY := DrawWrappedText(canvas, TextX, textY, MilitaryLabel + Format(military), TextFont);
    }
    column := ThenIf(column, data, "military_service", MilitaryLabel);
  }

  /** `generate_memorial_card(data, output_path)` up to saving the image. */
  method GenerateMemorialCard(data: CardData, env: Env) returns (r: RenderResult)
    requires WellFormed(data)
    ensures r == Plan(data, env)
  {
    if !env.loadable(BackgroundPath) {
      return Failed(BackgroundMissing);
    }
    var canvas := new Canvas(env.canvasWidth);

    var photoValue := Get(data, "photo_path");
    var photoPath := if Truthy(photoValue) then photoValue.s else DefaultPhotoPath;
    var photo;
    if env.loadable(photoPath) {
      photo := photoPath;
    } else if env.loadable(DefaultPhotoPath) {
      photo := DefaultPhotoPath;
    } else {
      return Failed(PhotoMissing);
    }

    var fullName := GetOr(data, "full_name", Str(UnknownName));
    if fullName.NoneVal? {
      return Failed(BadText);
    }
    DrawHead(canvas, data, env, photo, fullName.s);
    assert [] + Head(data, env, photo, fullName.s) == Head(data, env, photo, fullName.s);
    var textY := DrawBody(canvas, data);
    r := Rendered(Card(canvas.ops, textY));
  }

  /** A block that is drawn only when its field is truthy extends the list of drawn blocks. */
  lemma ThenIfBlocks(above: Column, texts: seq<string>, data: CardData, key: string, heading: string)
    ensures ThenIf(Blocks(above, TextX, texts, TextFont), data, key, heading)
         == Blocks(above, TextX, texts + Block(data, key, heading), TextFont)
  {
    if Truthy(Get(data, key)) {
      BlocksSnoc(above, TextX, texts, BlockText(heading, Get(data, key)), TextFont);
    } else {
      assert texts + [] == texts;
    }
  }

  /** The renderer's four `if` blocks draw exactly the blocks `BlockTexts` lists, in order. */
  lemma BodyIsBlocks(above: Column, data: CardData)
    ensures Body(above, data) == Blocks(above, TextX, BlockTexts(data), TextFont)
  {
    var t1 := Block(data, "description", DescriptionLabel);
    var t2 := Block(data, "burial_place", BurialLabel);
    var t3 := Block(data, "awards", AwardsLabel);
    assert Blocks(above, TextX, [], TextFont) == above;
    ThenIfBlocks(above, [], data, "description", DescriptionLabel);
    assert [] + t1 == t1;
    ThenIfBlocks(above, t1, data, "burial_place", BurialLabel);
    ThenIfBlocks(above, t1 + t2, data, "awards", AwardsLabel);
    ThenIfBlocks(above, t1 + t2 + t3, data, "military_service", MilitaryLabel);
  }

  /**
   * A rendered card is the head (title, date line, photo) followed by the
   * lines of all drawn blocks, one below the other from (50, 450).
   */
  lemma PlanPage(data: CardData, env: Env)
    requires WellFormed(data) && Plan(data, env).Rendered?
    ensures PhotoSource(data, env.loadable).Some?
    ensures var name := GetOr(data, "full_name", Str(UnknownName));
      var head := Head(data, env, PhotoSource(data, env.loadable).value, name.s);
      var column := LinesAt(TextX, TextTop, Stack(BlockTexts(data)), TextFont);
      name.Str? && Plan(data, env).card == Card(head + column.ops, column.bottom)
  {
    var name := GetOr(data, "full_name", Str(UnknownName));
    var head := Head(data, env, PhotoSource(data, env.loadable).value, name.s);
    BodyIsBlocks(Column(head, TextTop), data);
    BlocksAreStack(Column(head, TextTop), TextX, BlockTexts(data), TextFont);
  }

  /** The drawn lines hold exactly the visible characters of the drawn blocks, in order. */
  lemma BodyKeepsText(data: CardData)
    ensures NonBlank(Concat(Stack(BlockTexts(data)))) == NonBlank(Concat(BlockTexts(data)))
  {
    StackNonBlank(BlockTexts(data));
  }

  /**
   * The head of a card: the title centred at y = 30, then the date line
   * centred at y = 80 exactly when either date is truthy, reading
   * "{birth} – {death}", then the photo pasted centred at y = 130 as the
   * only image.
   */
  lemma HeadLayout(data: CardData, env: Env, photo: string, name: string)
    requires WellFormed(data)
    ensures var h := Head(data, env, photo, name);
      var w := env.canvasWidth;
      var birth := GetOr(data, "birth_date", Str(""));
      var death := GetOr(data, "death_date", Str(""));
      var titleBox := env.textbbox(TitleFont, name);
      && 2 <= |h| <= 3
      && h[0].Text? && h[0].y == TitleY && h[0].text == name && h[0].font == TitleFont
      && -1 <= 2 * h[0].x + (titleBox.right - titleBox.left) - w <= 1
      && ((exists i :: 0 <= i < |h| && h[i].Text? && h[i].y == DateY) <==> Truthy(birth) || Truthy(death))
      && (Truthy(birth) || Truthy(death) ==>
            var dateBox := env.textbbox(SubtitleFont, h[1].text);
            && h[1].Text? && h[1].text == Format(birth) + DateSeparator + Format(death)
            && h[1].font == SubtitleFont
            && -1 <= 2 * h[1].x + (dateBox.right - dateBox.left) - w <= 1)
      && h[|h| - 1] == Paste(photo, w / 2 - PhotoWidth / 2, PhotoY, PhotoWidth, PhotoHeight)
      && (forall i :: 0 <= i < |h| - 1 ==> h[i].Text?)
  {
    var h := Head(data, env, photo, name);
    if DateText(data).Some? {
      assert h[1].y == DateY;
    }
  }

  /**
   * Why a render stops: the background does not open; otherwise neither
   * the given photo nor the placeholder opens; otherwise "full_name" is
   * present and `None`. In every other case a card is drawn.
   */
  lemma PlanOutcome(data: CardData, env: Env)
    requires WellFormed(data)
    ensures var given := Get(data, "photo_path");
      var photoFails := !env.loadable(DefaultPhotoPath) && !(Truthy(given) && env.loadable(given.s));
      var nameIsNone := "full_name" in data && data["full_name"] == NoneVal;
      && (Plan(data, env) == Failed(BackgroundMissing) <==> !env.loadable(BackgroundPath))
      && (Plan(data, env) == Failed(PhotoMissing) <==> env.loadable(BackgroundPath) && photoFails)
      && (Plan(data, env) == Failed(BadText) <==> env.loadable(BackgroundPath) && !photoFails && nameIsNone)
      && (Plan(data, env).Rendered? <==> env.loadable(BackgroundPath) && !photoFails && !nameIsNone)
  {
  }

  /**
   * The cursor after the text blocks: 27 pixels per drawn line below
   * y = 450, and every drawn block gives at least one line, because its
   * label is visible text.
   */
  lemma PlanCursor(data: CardData, env: Env)
    requires WellFormed(data) && Plan(data, env).Rendered?
    ensures Plan(data, env).card.cursor == TextTop + |Stack(BlockTexts(data))| * LineStep(TextFont)
    ensures Plan(data, env).card.cursor >= TextTop + |BlockTexts(data)| * LineStep(TextFont)
  {
    PlanPage(data, env);
    LinesAtGeometry(TextX, TextTop, Stack(BlockTexts(data)), TextFont);
    LinePerBlock(data);
    MoreLinesLower(|Stack(BlockTexts(data))|, |BlockTexts(data)|, LineStep(TextFont));
  }

  lemma MoreLinesLower(lines: nat, blocks: nat, step: nat)
    requires lines >= blocks
    ensures lines * step >= blocks * step
  {
  }

  /** Every drawn block gives at least one line. */
  lemma LinePerBlock(data: CardData)
    ensures |Stack(BlockTexts(data))| >= |BlockTexts(data)|
  {
    BlocksAreVisible(data);
    StackHasLinePerBlock(BlockTexts(data));
  }

  /**
   * The drawn blocks are those of the truthy fields, in drawing order: each
   * begins with its field's label, which starts with a visible letter.
   */
  lemma BlocksAreVisible(data: CardData)
    ensures |BlockTexts(data)| == |DrawnLabels(data)|
    ensures forall i :: 0 <= i < |BlockTexts(data)| ==>
      Labelled(BlockTexts(data)[i], DrawnLabels(data)[i]) && NonBlank(BlockTexts(data)[i]) != []
  {
    BlockVisible(data, "description", DescriptionLabel);
    BlockVisible(data, "burial_place", BurialLabel);
    BlockVisible(data, "awards", AwardsLabel);
    BlockVisible(data, "military_service", MilitaryLabel);
    var t1 := Block(data, "description", DescriptionLabel);
    var t2 := Block(data, "burial_place", BurialLabel);
    var t3 := Block(data, "awards", AwardsLabel);
    var t4 := Block(data, "military_service", MilitaryLabel);
    var l1 := Label(data, "description", DescriptionLabel);
    var l2 := Label(data, "burial_place", BurialLabel);
    var l3 := Label(data, "awards", AwardsLabel);
    var l4 := Label(data, "military_service", MilitaryLabel);
    var all, labels := BlockTexts(data), DrawnLabels(data);
    forall i | 0 <= i < |all|
      ensures Labelled(all[i], labels[i]) && NonBlank(all[i]) != []
    {
      if i < |t1| {
        assert all[i] == t1[i] && labels[i] == l1[i];
      } else if i < |t1| + |t2| {
        assert all[i] == t2[i - |t1|] && labels[i] == l2[i - |t1|];
      } else if i < |t1| + |t2| + |t3| {
        assert all[i] == t3[i - |t1| - |t2|] && labels[i] == l3[i - |t1| - |t2|];
      } else {
        assert all[i] == t4[i - |t1| - |t2| - |t3|] && labels[i] == l4[i - |t1| - |t2| - |t3|];
      }
    }
  }

  lemma BlockVisible(data: CardData, key: string, heading: string)
    requires heading != [] && !IsSpace(heading[0])
    ensures |Block(data, key, heading)| == |Label(data, key, heading)|
    ensures forall i :: 0 <= i < |Block(data, key, heading)| ==>
      Labelled(Block(data, key, heading)[i], Label(data, key, heading)[i])
      && NonBlank(Block(data, key, heading)[i]) != []
  {
    var v := Get(data, key);
    match v
    case List(items) => VisibleHead(heading, Join(items, ", "));
    case Str(t) => VisibleHead(heading, t);
    case NoneVal => VisibleHead(heading, "None");
  }

  /**
   * A photo that is absent, empty or does not open renders exactly as
   * the placeholder given by path.
   */
  lemma MissingPhotoIsPlaceholder(data: CardData, env: Env)
    requires WellFormed(data)
    requires var given := Get(data, "photo_path"); !(Truthy(given) && env.loadable(given.s))
    ensures WellFormed(data["photo_path" := Str(DefaultPhotoPath)])
    ensures Plan(data, env) == Plan(data["photo_path" := Str(DefaultPhotoPath)], env)
  {
    var other := data["photo_path" := Str(DefaultPhotoPath)];
    assert PhotoSource(data, env.loadable) == PhotoSource(other, env.loadable);
    SameFieldsSameCard(data, other, env, "photo_path");
  }

  /** A block whose field is falsy draws nothing: the card is as if the field were absent. */
  lemma FalsyBlockSkipped(data: CardData, env: Env, key: string)
    requires WellFormed(data) && key in BlockKeys && !Truthy(Get(data, key))
    ensures WellFormed(data - {key})
    ensures Plan(data, env) == Plan(data - {key}, env)
  {
    var other := data - {key};
    assert PhotoSource(data, env.loadable) == PhotoSource(other, env.loadable);
    SameFieldsSameCard(data, other, env, key);
  }

  /**
   * Two records that agree on every field but `key`, where `key` is the
   * photo path (giving the same photo) or a falsy block field in both,
   * give the same card.
   */
  lemma SameFieldsSameCard(data: CardData, other: CardData, env: Env, key: string)
    requires WellFormed(data) && WellFormed(other)
    requires forall k :: k != key ==> (k in data <==> k in other) && (k in data ==> data[k] == other[k])
    requires key == "photo_path" || (key in BlockKeys && !Truthy(Get(data, key)) && !Truthy(Get(other, key)))
    requires PhotoSource(data, env.loadable) == PhotoSource(other, env.loadable)
    ensures Plan(data, env) == Plan(other, env)
  {
    assert key != "full_name" && key != "birth_date" && key != "death_date";
    assert DateText(data) == DateText(other);
    assert GetOr(data, "full_name", Str(UnknownName)) == GetOr(other, "full_name", Str(UnknownName));
    forall c: Column ensures Body(c, data) == Body(c, other) {
      BodySame(c, data, other, key);
    }
  }

  lemma BodySame(c: Column, data: CardData, other: CardData, key: string)
    requires forall k :: k != key ==> (k in data <==> k in other) && (k in data ==> data[k] == other[k])
    requires key == "photo_path" || (key in BlockKeys && !Truthy(Get(data, key)) && !Truthy(Get(other, key)))
    ensures Body(c, data) == Body(c, other)
  {
    var c1 := ThenIf(c, data, "description", DescriptionLabel);
    assert c1 == ThenIf(c, other, "description", DescriptionLabel);
    var c2 := ThenIf(c1, data, "burial_place", BurialLabel);
    assert c2 == ThenIf(c1, other, "burial_place", BurialLabel);
    var c3 := ThenIf(c2, data, "awards", AwardsLabel);
    assert c3 == ThenIf(c2, other, "awards", AwardsLabel);
  }

  /** A sample record: a name, both dates, two awards, no photo. */
  const ExampleRecord: CardData := map[
    "full_name" := Str("Иванов Иван Иванович"),
    "birth_date" := Str("01.01.1950"),
    "death_date" := Str("02.02.2020"),
    "awards" := List(["Medal A", "Medal B"])]

  /**
   * The card of the sample record: the head (see `ExampleHead`) followed by a single
   * awards line "Награды: Medal A, Medal B" at (50, 450), the placeholder
   * standing in for the missing photo, and the cursor left at 477.
   */
  lemma ExampleCard(env: Env)
    requires env.loadable(BackgroundPath) && env.loadable(DefaultPhotoPath)
    ensures WellFormed(ExampleRecord) && Plan(ExampleRecord, env).Rendered?
    ensures Plan(ExampleRecord, env).card
         == Card(Head(ExampleRecord, env, DefaultPhotoPath, "Иванов Иван Иванович")
                 + [Text(50, 450, "Награды: Medal A, Medal B", TextFont)], 477)
  {
    ExampleFacts(env);
    SingleLineCard(ExampleRecord, env, "Награды: Medal A, Medal B");
  }

  /** The sample record renders, its one block wraps to one line, and the placeholder is pasted. */
  lemma ExampleFacts(env: Env)
    requires env.loadable(BackgroundPath) && env.loadable(DefaultPhotoPath)
    ensures WellFormed(ExampleRecord) && Plan(ExampleRecord, env).Rendered?
    ensures Stack(BlockTexts(ExampleRecord)) == ["Награды: Medal A, Medal B"]
    ensures PhotoSource(ExampleRecord, env.loadable) == Some(DefaultPhotoPath)
    ensures GetOr(ExampleRecord, "full_name", Str(UnknownName)) == Str("Иванов Иван Иванович")
  {
    ExampleStack();
    ExampleFields();
    PlanOutcome(ExampleRecord, env);
  }

  /** The sample record has no photo and a string name. */
  lemma ExampleFields()
    ensures WellFormed(ExampleRecord)
    ensures Get(ExampleRecord, "photo_path") == NoneVal
    ensures GetOr(ExampleRecord, "full_name", Str(UnknownName)) == Str("Иванов Иван Иванович")
  {
  }

  /** A card whose blocks wrap to a single line is the head and that line at (50, 450). */
  lemma SingleLineCard(data: CardData, env: Env, line: string)
    requires WellFormed(data) && Plan(data, env).Rendered?
    requires Stack(BlockTexts(data)) == [line]
    ensures PhotoSource(data, env.loadable).Some? && GetOr(data, "full_name", Str(UnknownName)).Str?
    ensures var head := Head(data, env, PhotoSource(data, env.loadable).value, GetOr(data, "full_name", Str(UnknownName)).s);
      Plan(data, env).card == Card(head + [Text(TextX, TextTop, line, TextFont)], TextTop + LineStep(TextFont))
  {
    PlanPage(data, env);
    assert LinesAt(TextX, TextTop, [line], TextFont) == Column([Text(TextX, TextTop, line, TextFont)], TextTop + LineStep(TextFont));
  }

  /**
   * The head of the sample record: the title, the date line
   * "01.01.1950 – 02.02.2020" and the photo centred at y = 130.
   */
  lemma ExampleHead(env: Env)
    ensures WellFormed(ExampleRecord)
    ensures var h := Head(ExampleRecord, env, DefaultPhotoPath, "Иванов Иван Иванович");
      var w := env.canvasWidth;
      && |h| == 3
      && h[0].Text? && h[0].text == "Иванов Иван Иванович" && h[0].y == TitleY
      && h[1].Text? && h[1].text == "01.01.1950 – 02.02.2020" && h[1].y == DateY
      && h[2] == Paste(DefaultPhotoPath, w / 2 - 125, 130, 250, 300)
  {
    var data := ExampleRecord;
    assert GetOr(data, "birth_date", Str("")) == Str("01.01.1950");
    assert GetOr(data, "death_date", Str("")) == Str("02.02.2020");
    assert "01.01.1950" + DateSeparator + "02.02.2020" == "01.01.1950 – 02.02.2020";
    assert DateText(data) == Some("01.01.1950 – 02.02.2020");
  }

  /** The sample record's one block wraps to the single line it is. */
  lemma ExampleStack()
    ensures Stack(BlockTexts(ExampleRecord)) == ["Награды: Medal A, Medal B"]
  {
    ExampleBlocks();
    ExampleLineFits();
    SingleBlockStack("Награды: Medal A, Medal B");
  }

  /** A single block without a line break that fits on one line is stacked as that line. */
  lemma SingleBlockStack(line: string)
    requires '\n' !in line && Wrap(line, WrapWidth) == [line]
    ensures Stack([line]) == [line]
  {
    assert Stack([line]) == Stack([]) + WrapParagraphs(line, WrapWidth);
    SplitNoSep(line, '\n');
    assert WrapAll([line], WrapWidth) == WrapAll([], WrapWidth) + Wrap(line, WrapWidth);
  }

  /** The awards line of the sample record fits on one line. */
  lemma ExampleLineFits()
    ensures '\n' !in "Награды: Medal A, Medal B"
    ensures Wrap("Награды: Medal A, Medal B", WrapWidth) == ["Награды: Medal A, Medal B"]
  {
    var line := "Награды: Medal A, Medal B";
    assert |line| == 25;
    assert '\n' !in line;
    forall i | 0 <= i < |line| ensures line[i] == ' ' || !IsWrapSpace(line[i]) {
    }
    FitsOnOneLine(line, WrapWidth);
  }

  /** The sample record draws one block, the awards line. */
  lemma ExampleBlocks()
    ensures BlockTexts(ExampleRecord) == ["Награды: Medal A, Medal B"]
  {
    var data := ExampleRecord;
    assert "description" !in data && "burial_place" !in data && "military_service" !in data;
    assert Block(data, "description", DescriptionLabel) == [];
    assert Block(data, "burial_place", BurialLabel) == [];
    assert Block(data, "military_service", MilitaryLabel) == [];
    assert Get(data, "awards") == List(["Medal A", "Medal B"]);
    assert Join(["Medal A", "Medal B"], ", ") == "Medal A, Medal B";
    assert AwardsLabel + "Medal A, Medal B" == "Награды: Medal A, Medal B";
  }
}

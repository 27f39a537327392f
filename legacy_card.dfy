/**
 * The earlier memorial-card renderer of Card/card.py: every field is read
 * with `data[key]` (a missing one aborts the render), the date line and
 * all four text blocks are always drawn, the title and the date are
 * centred on `bbox[2]` alone, and the photo falls back to the placeholder
 * only when opening it fails.
 */
module LegacyCard {
  import opened PyStr
  import opened TextWrap
  import opened Drawing

  const BackgroundPath := "background.jpg"
  const DefaultPhotoPath := "default_photo.jpg"

  /** The keys read with `data[key]`, in the order they are read. */
  const RequiredKeys := ["full_name", "birth_date", "death_date", "description", "burial_place", "awards", "military_service"]

  /**
   * `wrap_text(draw, text, font, max_width)`: the drawing context, the
   * font and the pixel width are ignored; paragraphs are wrapped at 40
   * characters.
   */
  method WrapText(text: string, font: Font, maxWidth: int) returns (lines: seq<string>)
    ensures lines == WrapParagraphs(text, WrapWidth)
  {
    var paragraphs := Split(text, '\n');
    lines := [];
    for i := 0 to |paragraphs|
      invariant lines == WrapAll(paragraphs[..i], WrapWidth)
    {
      WrapAllPrefix(paragraphs, i, WrapWidth);
      lines := lines + Wrap(paragraphs[i], WrapWidth);
    }
    assert paragraphs[..|paragraphs|] == paragraphs;
  }

  /** `draw_wrapped_text`: the wrapped lines drawn from (x, y) downwards; the result is the y below them. */
  method DrawWrappedText(canvas: Canvas, x: int, y: int, text: string, font: Font, maxWidth: int) returns (yEnd: int)
    modifies canvas
    ensures Column(canvas.ops, yEnd) == Then(Column(old(canvas.ops), y), x, text, font)
  {
    var lines := WrapText(text, font, maxWidth);
    yEnd := y;
    var todo := lines;
    while todo != []
      invariant old(canvas.ops) + LinesAt(x, y, lines, font).ops == canvas.ops + LinesAt(x, yEnd, todo, font).ops
      invariant LinesAt(x, y, lines, font).bottom == LinesAt(x, yEnd, todo, font).bottom
    {
      ghost var drawn, yPrev, todoPrev := canvas.ops, yEnd, todo;
      canvas.DrawText(x, yEnd, todo[0], font);
      yEnd := yEnd + font.size + 5;
      todo := todo[1..];
      DrawNextLine(old(canvas.ops), x, y, lines, font, drawn, yPrev, todoPrev, canvas.ops, yEnd, todo);
    }
    assert canvas.ops + [] == canvas.ops;
  }

  /**
   * The photo that is pasted: `data.get("photo_path", DEFAULT_PHOTO_PATH)`
   * when it opens, otherwise the placeholder (a `None` path fails to open
   * too); `None` when the placeholder is needed and does not open.
   */
  function PhotoSource(data: CardData, loadable: string -> bool): (r: Option<string>)
    ensures var given := GetOr(data, "photo_path", Str(DefaultPhotoPath));
      && (r.Some? ==> loadable(r.value))
      && (r.Some? ==> r.value == DefaultPhotoPath || (given.Str? && r.value == given.s))
      && (given.Str? && loadable(given.s) ==> r == Some(given.s))
      && (r.None? <==> !loadable(DefaultPhotoPath) && !(given.Str? && loadable(given.s)))
  {
    var given := GetOr(data, "photo_path", Str(DefaultPhotoPath));
    if given.Str? && loadable(given.s) then Some(given.s)
    else if loadable(DefaultPhotoPath) then Some(DefaultPhotoPath)
    else None
  }

  /** `width // 2 - bbox[2] // 2`: centred only when the box starts at 0. */
  function CenterX(width: int, box: BBox): (x: int)
    ensures -1 <= 2 * x + box.right - width <= 1
  {
    width / 2 - box.right / 2
  }

  /** The characters of a string, each as a one-character string: what `str.join` iterates over. */
  function Chars(s: string): (r: seq<string>)
    ensures |r| == |s| && forall i :: 0 <= i < |s| ==> r[i] == [s[i]]
  {
    seq(|s|, i requires 0 <= i < |s| => [s[i]])
  }

  /** `', '.join(awards)` for a list or a string; `None` is not iterable. */
  function AwardsText(awards: Value): string
    requires !awards.NoneVal?
  {
    match awards
    case List(items) => Join(items, ", ")
    case Str(s) => Join(Chars(s), ", ")
  }

  /** The texts a card shows: the name, the date line and the four blocks in order. */
  datatype Texts = Texts(name: string, date: string, blocks: seq<string>)

  datatype TextsResult = Found(texts: Texts) | Missing(error: RenderError)

  /**
   * The texts read from the record, or the first error in the order the
   * renderer reads the fields: a missing key, or a `None` name or awards.
   */
  function CardTexts(data: CardData): TextsResult
    requires WellFormed(data)
  {
    if "full_name" !in data then Missing(KeyMissing("full_name"))
    else if data["full_name"].NoneVal? then Missing(BadText)
    else if "birth_date" !in data then Missing(KeyMissing("birth_date"))
    else if "death_date" !in data then Missing(KeyMissing("death_date"))
    else if "description" !in data then Missing(KeyMissing("description"))
    else if "burial_place" !in data then Missing(KeyMissing("burial_place"))
    else if "awards" !in data then Missing(KeyMissing("awards"))
    else if data["awards"].NoneVal? then Missing(BadText)
    else if "military_service" !in data then Missing(KeyMissing("military_service"))
    else
      Found(Texts(
        data["full_name"].s,
        DateText(data),
        [ DescriptionLabel + Format(data["description"]),
          BurialLabel + Format(data["burial_place"]),
          AwardsLabel + AwardsText(data["awards"]),
          MilitaryLabel + Format(data["military_service"]) ]))
  }

  /** The keys the title and the date line read: a missing one, or a `None` name, stops the render there. */
  predicate HeadReadable(data: CardData) {
    "full_name" in data && !data["full_name"].NoneVal? && "birth_date" in data && "death_date" in data
  }

  /** `f"{data['birth_date']} – {data['death_date']}"` */
  function DateText(data: CardData): string
    requires WellFormed(data) && "birth_date" in data && "death_date" in data
  {
    Format(data["birth_date"]) + DateSeparator + Format(data["death_date"])
  }

  /**
   * The date line puts " – " between the two dates as given, so it reads
   * " – " when both are empty and "None – None" when both are `None`.
   */
  lemma EmptyDatesText(data: CardData)
    requires WellFormed(data) && "birth_date" in data && "death_date" in data
    ensures DateText(data) == Format(data["birth_date"]) + " – " + Format(data["death_date"])
    ensures data["birth_date"] == Str("") && data["death_date"] == Str("") ==> DateText(data) == " – "
    ensures data["birth_date"] == NoneVal && data["death_date"] == NoneVal ==> DateText(data) == "None – None"
  {
  }

  /** The title at y = 30, the date line at y = 80 and the photo at y = 130. */
  function Head(env: Env, photo: string, name: string, date: string): seq<DrawOp> {
    var w := env.canvasWidth;
    [ Text(CenterX(w, env.textbbox(TitleFont, name)), TitleY, name, TitleFont),
      Text(CenterX(w, env.textbbox(SubtitleFont, date)), DateY, date, SubtitleFont),
      Paste(photo, w / 2 - PhotoWidth / 2, PhotoY, PhotoWidth, PhotoHeight) ]
  }

  /** The four blocks drawn one below the other under `above`, as the renderer does. */
  function Body(above: Column, blocks: seq<string>): Column
    requires |blocks| == 4
  {
    var c := Then(above, TextX, blocks[0], TextFont);
    var c := Then(c, TextX, blocks[1], TextFont);
    var c := Then(c, TextX, blocks[2], TextFont);
    Then(c, TextX, blocks[3], TextFont)
  }

  /**
   * What `generate_memorial_card` draws, or why it stops. A key that stops
   * it is one of the seven it reads with `data[key]`, and is missing.
   */
  function Plan(data: CardData, env: Env): (r: RenderResult)
    requires WellFormed(data)
    ensures r.Failed? && r.error.KeyMissing? ==> r.error.key in RequiredKeys && r.error.key !in data
  {
    if !env.loadable(BackgroundPath) then Failed(BackgroundMissing)
    else match PhotoSource(data, env.loadable)
      case None => Failed(PhotoMissing)
      case Some(photo) =>
        match CardTexts(data)
        case Missing(e) => Failed(e)
        case Found(t) =>
          var page := Body(Column(Head(env, photo, t.name, t.date), TextTop), t.blocks);
          Rendered(Card(page.ops, page.bottom))
  }

  /** Lines 49-59 of `generate_memorial_card`: the title, the date line and the photo, with the key checks between them. */
  method DrawHead(canvas: Canvas, data: CardData, env: Env, photo: string) returns (error: Option<RenderError>)
    requires WellFormed(data) && canvas.width == env.canvasWidth && canvas.ops == []
    modifies canvas
    ensures error.None? <==> HeadReadable(data)
    ensures error.Some? ==> CardTexts(data) == Missing(error.value)
    ensures error.None? ==> canvas.ops == Head(env, photo, data["full_name"].s, DateText(data))
  {
    if "full_name" !in data {
      return Some(KeyMissing("full_name"));
    }
    var fullName := data["full_name"];
    if fullName.NoneVal? {
      return Some(BadText);
    }
    var width := canvas.width;
    var bbox := env.textbbox(TitleFont, fullName.s);
    canvas.DrawText(width / 2 - bbox.right / 2, TitleY, fullName.s, TitleFont);

    if "birth_date" !in data {
      return Some(KeyMissing("birth_date"));
    }
    if "death_date" !in data {
      return Some(KeyMissing("death_date"));
    }
    var dateText := DateText(data);
    bbox := env.textbbox(SubtitleFont, dateText);
    canvas.DrawText(width / 2 - bbox.right / 2, DateY, dateText, SubtitleFont);

    canvas.PastePhoto(photo, width / 2 - PhotoWidth / 2, PhotoY, PhotoWidth, PhotoHeight);
    error := None;
  }

  /** Lines 62-69 of `generate_memorial_card`: the four blocks, each read with `data[key]`. */
  method DrawBody(canvas: Canvas, data: CardData) returns (textY: int, error: Option<RenderError>)
    requires WellFormed(data)
    requires HeadReadable(data)
    modifies canvas
    ensures var texts := CardTexts(data);
      && (error.Some? <==> texts.Missing?)
      && (error.Some? ==> error.value == texts.error)
      && (texts.Found? ==> Column(canvas.ops, textY) == Body(Column(old(canvas.ops), TextTop), texts.texts.blocks))
  {
    textY := TextTop;
    ghost var column := Column(canvas.ops, TextTop);

    if "description" !in data {
      return textY, Some(KeyMissing("description"));
    }
    var description := DescriptionLabel + Format(data["description"]);
    textY := DrawWrappedText(canvas, TextX, textY, description, TextFont, TextWidth);
    column := Then(column, TextX, description, TextFont);

    if "burial_place" !in data {
      return textY, Some(KeyMissing("burial_place"));
    }
    var burial := BurialLabel + Format(data["burial_place"]);
    textY := DrawWrappedText(canvas, TextX, textY, burial, TextFont, TextWidth);
    column := Then(column, TextX, burial, TextFont);

    if "awards" !in data {
      return textY, Some(KeyMissing("awards"));
    }
    if data["awards"].NoneVal? {
      return textY, Some(BadText);
    }
    var awards := AwardsLabel + AwardsText(data["awards"]);
    textY := DrawWrappedText(canvas, TextX, textY, awards, TextFont, TextWidth);
    column := Then(column, TextX, awards, TextFont);

    if "military_service" !in data {
      return textY, Some(KeyMissing("military_service"));
    }
    var military := MilitaryLabel + Format(data["military_service"]);
    textY := DrawWrappedText(canvas, TextX, textY, military, TextFont, TextWidth);
    error := None;
  }

  /** The pixel width handed to `draw_wrapped_text`, which it ignores. */
  const TextWidth := 900

  /** `generate_memorial_card(data, output_path)` up to saving the image. */
  method GenerateMemorialCard(data: CardData, env: Env) returns (r: RenderResult)
    requires WellFormed(data)
    ensures r == Plan(data, env)
  {
    if !env.loadable(BackgroundPath) {
      return Failed(BackgroundMissing);
    }
    var canvas := new Canvas(env.canvasWidth);

    var given := GetOr(data, "photo_path", Str(DefaultPhotoPath));
    var photo;
    if given.Str? && env.loadable(given.s) {
      photo := given.s;
    } else if env.loadable(DefaultPhotoPath) {
      photo := DefaultPhotoPath;
    } else {
      return Failed(PhotoMissing);
    }

    var error := DrawHead(canvas, data, env, photo);
    if error.Some? {
      return Failed(error.value);
    }
    assert photo == PhotoSource(data, env.loadable).value;
    var textY;
    textY, error := DrawBody(canvas, data);
    if error.Some? {
      return Failed(error.value);
    }
    r := Rendered(Card(canvas.ops, textY));
  }

  /** The four blocks drawn in turn are the blocks drawn one after the other. */
  lemma BodyIsBlocks(above: Column, blocks: seq<string>)
    requires |blocks| == 4
    ensures Body(above, blocks) == Blocks(above, TextX, blocks, TextFont)
  {
    var b1, b2, b3 := blocks[..1], blocks[..2], blocks[..3];
    var c0 := Blocks(above, TextX, [], TextFont);
    assert b1[..0] == [];
    var c1 := Blocks(above, TextX, b1, TextFont);
    assert c1 == Then(c0, TextX, blocks[0], TextFont);
    assert b2[..1] == b1;
    var c2 := Blocks(above, TextX, b2, TextFont);
    assert c2 == Then(c1, TextX, blocks[1], TextFont);
    assert b3[..2] == b2;
    var c3 := Blocks(above, TextX, b3, TextFont);
    assert c3 == Then(c2, TextX, blocks[2], TextFont);
    assert Blocks(above, TextX, blocks, TextFont) == Then(c3, TextX, blocks[3], TextFont);
  }

  /**
   * A rendered card is the title, the date line and the photo, followed by
   * the lines of the four blocks, one below the other from (50, 450).
   */
  lemma PlanPage(data: CardData, env: Env)
    requires WellFormed(data) && Plan(data, env).Rendered?
    ensures PhotoSource(data, env.loadable).Some? && CardTexts(data).Found? && HeadReadable(data)
    ensures var t := CardTexts(data).texts;
      var head := Head(env, PhotoSource(data, env.loadable).value, t.name, t.date);
      var column := LinesAt(TextX, TextTop, Stack(t.blocks), TextFont);
      && t.name == data["full_name"].s && t.date == DateText(data)
      && Plan(data, env).card == Card(head + column.ops, column.bottom)
  {
    var t := CardTexts(data).texts;
    var head := Head(env, PhotoSource(data, env.loadable).value, t.name, t.date);
    BodyIsBlocks(Column(head, TextTop), t.blocks);
    BlocksAreStack(Column(head, TextTop), TextX, t.blocks, TextFont);
  }

  /**
   * Which records render: the background and a photo open, every one of
   * the seven fields is present, and neither the name nor the awards is
   * `None`. A missing key that stops the render is one of the seven.
   */
  lemma PlanOutcome(data: CardData, env: Env)
    requires WellFormed(data)
    ensures Plan(data, env).Rendered? <==>
      && env.loadable(BackgroundPath)
      && PhotoSource(data, env.loadable).Some?
      && (forall i :: 0 <= i < |RequiredKeys| ==> RequiredKeys[i] in data)
      && Get(data, "full_name") != NoneVal && Get(data, "awards") != NoneVal
    ensures forall k :: Plan(data, env) == Failed(KeyMissing(k)) ==> k in RequiredKeys && k !in data
  {
    TextsFound(data);
    MissingKeyIsRequired(data);
  }

  /** The texts are read when all seven keys are present and neither the name nor the awards is `None`. */
  lemma TextsFound(data: CardData)
    requires WellFormed(data)
    ensures CardTexts(data).Found? <==>
      && (forall i :: 0 <= i < |RequiredKeys| ==> RequiredKeys[i] in data)
      && Get(data, "full_name") != NoneVal && Get(data, "awards") != NoneVal
  {
    if forall i :: 0 <= i < |RequiredKeys| ==> RequiredKeys[i] in data {
      assert RequiredKeys[0] in data && RequiredKeys[1] in data && RequiredKeys[2] in data;
      assert RequiredKeys[3] in data && RequiredKeys[4] in data && RequiredKeys[5] in data && RequiredKeys[6] in data;
    }
  }

  /**
   * The fields are read in the order of `RequiredKeys`, with the name
   * checked for `None` right after it is read and the awards right after
   * they are: the render stops at key i exactly when it is the first
   * missing one and no `None` stopped it before.
   */
  lemma FirstMissingKey(data: CardData, i: nat)
    requires WellFormed(data) && i < |RequiredKeys|
    ensures CardTexts(data) == Missing(KeyMissing(RequiredKeys[i])) <==>
      && RequiredKeys[i] !in data
      && (forall j :: 0 <= j < i ==> RequiredKeys[j] in data)
      && (i > 0 ==> Get(data, "full_name") != NoneVal)
      && (i == 6 ==> Get(data, "awards") != NoneVal)
  {
    var keys := RequiredKeys;
    assert keys[0] == "full_name" && keys[1] == "birth_date" && keys[2] == "death_date";
    assert keys[3] == "description" && keys[4] == "burial_place" && keys[5] == "awards";
    assert keys[6] == "military_service";
  }

  /**
   * A `None` stops the render when it is the name, or when it is the
   * awards and every key read before them is present.
   */
  lemma NoneStops(data: CardData)
    requires WellFormed(data)
    ensures CardTexts(data) == Missing(BadText) <==>
      || ("full_name" in data && data["full_name"] == NoneVal)
      || (&& (forall j :: 0 <= j < 6 ==> RequiredKeys[j] in data)
          && Get(data, "full_name") != NoneVal && Get(data, "awards") == NoneVal)
  {
    var keys := RequiredKeys;
    assert keys[0] == "full_name" && keys[1] == "birth_date" && keys[2] == "death_date";
    assert keys[3] == "description" && keys[4] == "burial_place" && keys[5] == "awards";
  }

  /** A key whose absence stops the render is one of the seven that are read. */
  lemma MissingKeyIsRequired(data: CardData)
    requires WellFormed(data)
    ensures forall k :: CardTexts(data) == Missing(KeyMissing(k)) ==> k in RequiredKeys && k !in data
  {
  }

  /**
   * The date line is always drawn, at y = 80 between the title at y = 30
   * and the photo at (width // 2 - 125, 130), even when both dates are
   * empty (see `EmptyDatesText`).
   */
  lemma DateAlwaysDrawn(data: CardData, env: Env)
    requires WellFormed(data) && Plan(data, env).Rendered?
    ensures var ops := Plan(data, env).card.ops;
      var w := env.canvasWidth;
      && |ops| >= 3
      && ops[0].Text? && ops[0].y == TitleY && ops[0].text == data["full_name"].s && ops[0].font == TitleFont
      && ops[1].Text? && ops[1].y == DateY && ops[1].font == SubtitleFont && ops[1].text == DateText(data)
      && ops[2] == Paste(PhotoSource(data, env.loadable).value, w / 2 - 125, 130, 250, 300)
  {
    PlanPage(data, env);
    var t := CardTexts(data).texts;
    var column := LinesAt(TextX, TextTop, Stack(t.blocks), TextFont);
    HeadOps(Plan(data, env).card, env, PhotoSource(data, env.loadable).value, t.name, t.date, column);
  }

  /** The first three operations of a card that starts with a head. */
  lemma HeadOps(card: Card, env: Env, photo: string, name: string, date: string, column: Column)
    requires card == Card(Head(env, photo, name, date) + column.ops, column.bottom)
    ensures var w := env.canvasWidth;
      && |card.ops| >= 3
      && card.ops[0] == Text(CenterX(w, env.textbbox(TitleFont, name)), TitleY, name, TitleFont)
      && card.ops[1] == Text(CenterX(w, env.textbbox(SubtitleFont, date)), DateY, date, SubtitleFont)
      && card.ops[2] == Paste(photo, w / 2 - 125, 130, 250, 300)
  {
    StartsWith(card, Head(env, photo, name, date), column);
  }

  /**
   * Each block starts with its visible label, so it gives at least one
   * line: the cursor ends 27 pixels per drawn line below y = 450, and at
   * least four lines below it.
   */
  lemma PlanCursor(data: CardData, env: Env)
    requires WellFormed(data) && Plan(data, env).Rendered?
    ensures CardTexts(data).Found?
    ensures var blocks := CardTexts(data).texts.blocks;
      && Plan(data, env).card.cursor == TextTop + |Stack(blocks)| * LineStep(TextFont)
      && Plan(data, env).card.cursor >= TextTop + 4 * LineStep(TextFont)
  {
    PlanPage(data, env);
    var blocks := CardTexts(data).texts.blocks;
    LinesAtGeometry(TextX, TextTop, Stack(blocks), TextFont);
    BlocksVisible(data);
    StackHasLinePerBlock(blocks);
    FourLinesLower(|Stack(blocks)|, LineStep(TextFont));
  }

  lemma FourLinesLower(lines: nat, step: nat)
    requires lines >= 4
    ensures lines * step >= 4 * step
  {
  }

  /**
   * A readable record has all four blocks, each beginning with its label,
   * so each has a visible character.
   */
  lemma BlocksVisible(data: CardData)
    requires WellFormed(data) && CardTexts(data).Found?
    ensures var blocks := CardTexts(data).texts.blocks;
      |blocks| == 4
      && Labelled(blocks[0], DescriptionLabel) && Labelled(blocks[1], BurialLabel)
      && Labelled(blocks[2], AwardsLabel) && Labelled(blocks[3], MilitaryLabel)
    ensures var blocks := CardTexts(data).texts.blocks;
      |blocks| == 4 && forall i :: 0 <= i < 4 ==> NonBlank(blocks[i]) != []
  {
    var blocks := CardTexts(data).texts.blocks;
    VisibleHead(DescriptionLabel, Format(data["description"]));
    VisibleHead(BurialLabel, Format(data["burial_place"]));
    VisibleHead(AwardsLabel, AwardsText(data["awards"]));
    VisibleHead(MilitaryLabel, Format(data["military_service"]));
  }

  /**
   * A record without "photo_path", or with `None` there, renders exactly as
   * one naming the placeholder.
   */
  lemma NoPhotoIsPlaceholder(data: CardData, env: Env)
    requires WellFormed(data) && Get(data, "photo_path") == NoneVal
    ensures WellFormed(data["photo_path" := Str(DefaultPhotoPath)])
    ensures Plan(data, env) == Plan(data["photo_path" := Str(DefaultPhotoPath)], env)
  {
    var other := data["photo_path" := Str(DefaultPhotoPath)];
    assert PhotoSource(data, env.loadable) == PhotoSource(other, env.loadable);
    assert CardTexts(data) == CardTexts(other) by {
      assert forall k :: k != "photo_path" ==> (k in data <==> k in other) && (k in data ==> data[k] == other[k]);
    }
  }
}

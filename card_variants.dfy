/**
 * How the two renderers differ: card_generator.py draws a block or the
 * date line only when its fields are truthy and centres on the full
 * width of the text box, while Card/card.py draws everything, reads every
 * field with `data[key]` and centres on the right edge of the box. On a
 * record where none of that matters they draw the same card.
 */
module CardVariants {
  import opened PyStr
  import opened TextWrap
  import opened Drawing
  import CG = CardGenerator
  import Legacy = LegacyCard

  /**
   * A record that both renderers read the same way: every field is set,
   * the photo path is a non-empty string, at least one date and every
   * block field is truthy, the name is a string and the awards a list.
   */
  predicate Complete(data: CardData) {
    && WellFormed(data)
    && "full_name" in data && "birth_date" in data && "death_date" in data && "description" in data
    && "burial_place" in data && "awards" in data && "military_service" in data
    && "photo_path" in data && Truthy(data["photo_path"]) && data["photo_path"].Str?
    && data["full_name"].Str?
    && (Truthy(data["birth_date"]) || Truthy(data["death_date"]))
    && Truthy(data["description"]) && Truthy(data["burial_place"])
    && Truthy(data["awards"]) && data["awards"].List? && Truthy(data["military_service"])
  }

  /**
   * On a complete record whose photo opens, and whose title and date
   * boxes start at x = 0, both renderers draw the same card.
   */
  lemma VariantsAgree(data: CardData, env: Env)
    requires Complete(data)
    requires env.loadable(CG.BackgroundPath) && env.loadable(Legacy.BackgroundPath)
    requires env.loadable(data["photo_path"].s)
    requires env.textbbox(TitleFont, data["full_name"].s).left == 0
    requires CG.DateText(data).Some? && env.textbbox(SubtitleFont, CG.DateText(data).value).left == 0
    ensures CG.Plan(data, env).Rendered? && CG.Plan(data, env) == Legacy.Plan(data, env)
  {
    CompleteKeys(data);
    var photo := data["photo_path"].s;
    assert CG.PhotoSource(data, env.loadable) == Some(photo);
    assert Legacy.PhotoSource(data, env.loadable) == Some(photo);
    Legacy.TextsFound(data);
    HeadsAgree(data, env, photo);
    BlocksAgree(data);
    CG.PlanPage(data, env);
    Legacy.PlanPage(data, env);
  }

  /** A complete record holds the seven keys Card/card.py reads. */
  lemma CompleteKeys(data: CardData)
    requires Complete(data)
    ensures forall i :: 0 <= i < |Legacy.RequiredKeys| ==> Legacy.RequiredKeys[i] in data
  {
  }

  /** With boxes starting at 0 the two centrings agree, and so do the heads. */
  lemma HeadsAgree(data: CardData, env: Env, photo: string)
    requires Complete(data)
    requires env.textbbox(TitleFont, data["full_name"].s).left == 0
    requires CG.DateText(data).Some? && env.textbbox(SubtitleFont, CG.DateText(data).value).left == 0
    ensures CG.Head(data, env, photo, data["full_name"].s)
         == Legacy.Head(env, photo, data["full_name"].s, Legacy.DateText(data))
  {
    assert CG.DateText(data).value == Legacy.DateText(data);
  }

  /** With every block field truthy, both renderers draw the same four blocks. */
  lemma BlocksAgree(data: CardData)
    requires Complete(data)
    requires Legacy.CardTexts(data).Found?
    ensures CG.BlockTexts(data) == Legacy.CardTexts(data).texts.blocks
  {
    var awards := data["awards"];
    assert CG.BlockText(AwardsLabel, awards) == AwardsLabel + Legacy.AwardsText(awards);
  }

  /**
   * With both dates empty, card_generator.py goes straight from the title
   * to the photo, while Card/card.py draws the date line " – " at y = 80.
   */
  lemma EmptyDatesDiffer(data: CardData, env: Env)
    requires WellFormed(data) && Get(data, "birth_date") == Str("") && Get(data, "death_date") == Str("")
    requires CG.Plan(data, env).Rendered? && Legacy.Plan(data, env).Rendered?
    ensures var ops := CG.Plan(data, env).card.ops;
      |ops| >= 2 && ops[0].Text? && ops[0].y == TitleY && ops[1].Paste?
    ensures var ops := Legacy.Plan(data, env).card.ops;
      |ops| >= 2 && ops[1].Text? && ops[1].y == DateY && ops[1].text == " – "
  {
    CG.PlanPage(data, env);
    var photo := CG.PhotoSource(data, env.loadable).value;
    var name := GetOr(data, "full_name", Str(CG.UnknownName)).s;
    var head := CG.Head(data, env, photo, name);
    assert CG.DateText(data).None?;
    StartsWith(CG.Plan(data, env).card, head, LinesAt(TextX, TextTop, Stack(CG.BlockTexts(data)), TextFont));
    Legacy.DateAlwaysDrawn(data, env);
    Legacy.EmptyDatesText(data);
  }

  /**
   * A record without "description": card_generator.py draws the card
   * without that block, Card/card.py stops with a `KeyError`.
   */
  lemma MissingDescriptionDiffers(data: CardData, env: Env)
    requires WellFormed(data) && "description" !in data && Legacy.HeadReadable(data)
    requires env.loadable(CG.BackgroundPath) && env.loadable(CG.DefaultPhotoPath)
    requires env.loadable(Legacy.BackgroundPath) && env.loadable(Legacy.DefaultPhotoPath)
    ensures CG.Plan(data, env).Rendered?
    ensures Legacy.Plan(data, env) == Failed(KeyMissing("description"))
  {
    CG.PlanOutcome(data, env);
  }

  /**
   * Card/card.py joins a string of awards character by character: the
   * result has ", " between every two characters, where card_generator.py
   * draws the string as it is.
   */
  lemma {:induction false} AwardsStringSpelledOut(s: string)
    ensures var r := Legacy.AwardsText(Str(s));
      && (s == [] ==> r == [])
      && (s != [] ==> |r| == 3 * |s| - 2 && forall i :: 0 <= i < |s| ==> r[3 * i] == s[i])
      && (forall i :: 0 <= i < |s| - 1 ==> r[3 * i + 1] == ',' && r[3 * i + 2] == ' ')
    ensures CG.BlockText(AwardsLabel, Str(s)) == AwardsLabel + s
  {
    if |s| > 1 {
      AwardsStringSpelledOut(s[1..]);
      var chars := Legacy.Chars(s);
      assert chars[1..] == Legacy.Chars(s[1..]);
      var r := Legacy.AwardsText(Str(s));
      var rest := Legacy.AwardsText(Str(s[1..]));
      assert r == [s[0]] + ", " + rest;
      SpelledOutCons(s, rest, r);
    }
  }

  /** Putting a character and ", " in front of a spelled-out tail spells out the whole string. */
  lemma SpelledOutCons(s: string, rest: string, r: string)
    requires |s| > 1 && r == [s[0]] + ", " + rest && |rest| == 3 * (|s| - 1) - 2
    requires forall i :: 0 <= i < |s| - 1 ==> rest[3 * i] == s[1..][i]
    requires forall i :: 0 <= i < |s| - 2 ==> rest[3 * i + 1] == ',' && rest[3 * i + 2] == ' '
    ensures |r| == 3 * |s| - 2 && forall i :: 0 <= i < |s| ==> r[3 * i] == s[i]
    ensures forall i :: 0 <= i < |s| - 1 ==> r[3 * i + 1] == ',' && r[3 * i + 2] == ' '
  {
    forall i | 0 < i < |s| ensures r[3 * i] == s[i] {
      assert r[3 * i] == rest[3 * (i - 1)];
    }
    forall i | 0 < i < |s| - 1 ensures r[3 * i + 1] == ',' && r[3 * i + 2] == ' ' {
      assert r[3 * i + 1] == rest[3 * (i - 1) + 1] && r[3 * i + 2] == rest[3 * (i - 1) + 2];
    }
  }
}

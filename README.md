# Memorial cards and record moderation, modelled in Dafny

The application keeps memorial records of people who died in military
service. Users register, log in and submit records. Administrators approve
those records, create and edit records themselves, block users, and render
a record as a memorial card image.

This project models three parts of it:

- **The card renderer of `card_generator.py`** (modules `TextWrap`, `Drawing`, `CardGenerator`).
  - `wrap_text` splits the text into paragraphs and wraps each one with Python's
    `textwrap.wrap` at width 40. That function is modelled with its defaults:
    tab expansion, whitespace munging, the greedy line filler, dropping of
    whitespace, and breaking of long words.
  - `draw_wrapped_text` draws one line every `font.size + 5` pixels.
  - `generate_memorial_card` picks a photo, centres the title and the optional
    date line, pastes the photo, and draws the optional text blocks in a fixed order.
  - A card is the list of draw operations on the canvas plus the final vertical
    cursor. Pixels are not modelled.
  - The background width, which image paths can be opened, and Pillow's
    `textbbox` are parameters (`Drawing.Env`).
- **The earlier renderer in `Card/card.py`** (module `LegacyCard`).
  - It draws the date line and all four blocks unconditionally.
  - It reads the name, the two dates and the four block fields with `data[key]`, so a missing one is an error.
    Only the photo path is read with `data.get`, falling back to the placeholder.
  - It centres the title on `bbox[2]` alone.
  - `CardVariants` proves where the two renderers agree and where they differ.
- **The moderation rules of `app.py`** (module `App`).
  - Awards parsing, `is_active`, and the access decision of `role_required`.
  - The login decision.
  - A store of users, records and the action log, with one method per route:
    register, toggle block, approve, edit, create (by an administrator),
    submit (by a user) and profile update.
  - The store's invariant says that rows sit under their own ids and that
    e-mail addresses are unique.

`PyStr` models the Python string operations used throughout: `isspace`,
`strip`, `split` and `join`.

## Model

| member | source | states |
|---|---|---|
| PyStr.Strip | app.py:84 | the result has no whitespace at either end, keeps every visible character in order, and leaves an already stripped string unchanged |
| PyStr.StripIsSlice | app.py:84 | `strip` removes a whitespace-only margin at each end and nothing else: the result is the slice of the input between those margins |
| PyStr.SplitJoin | app.py:84 | splitting at `sep` undoes joining with `sep` when no part contains it |
| PyStr.JoinSplit | app.py:84 | joining the pieces of a split with the separator gives back the text |
| PyStr.SplitJoinPadded | app.py:84 | splitting at `,` a list joined with `", "` gives the first item, then every other item preceded by the space |
| PyStr.StripBlankPrefix | app.py:84 | stripping whitespace put in front of a stripped string gives the string back |
| TextWrap.ExpandTabs | card_generator.py:24 | `expandtabs()` leaves no tab |
| TextWrap.ExpandTabsTabStop | card_generator.py:24 | on a line, a tab becomes 1 to 8 spaces that reach the next multiple of 8 counted from the line's start, and the text after it is expanded from that tab stop |
| TextWrap.ExpandTabsLineBreak | card_generator.py:24 | "\n" and "\r" are kept and restart the column at 0, whatever precedes them |
| TextWrap.ReplaceWhitespace | card_generator.py:24 | every whitespace character becomes one space, and every other character is kept at its position |
| TextWrap.Chunks | card_generator.py:24 | the chunks are non-empty, and concatenated they give back the text |
| TextWrap.ChunksAreRuns | card_generator.py:24 | each chunk is a run of spaces or a run of non-spaces, and neighbouring chunks are of different kinds, so the chunks are the maximal runs |
| TextWrap.TakeFitting | card_generator.py:24 | the greedy filler takes a prefix of the chunks that fits the room left, and stops at the first chunk that does not fit |
| TextWrap.TakeFittingExact | card_generator.py:24 | any prefix that fits, followed by a chunk that does not, is exactly what the filler takes |
| TextWrap.RFindHyphen | card_generator.py:24 | the index of the last `-` before the limit, or -1 when there is none |
| TextWrap.LongWordCut | card_generator.py:24 | a word longer than the line is cut within the room left, and by at least one character when there is room |
| TextWrap.LongWordCutRule | card_generator.py:24 | the cut falls right after the last hyphen within the room when a non-hyphen precedes that hyphen, and otherwise exactly where the room ends |
| TextWrap.FillLine | card_generator.py:24 | one wrapped line is at most the width, consumes input, and loses no visible character |
| TextWrap.FillLineGreedy | card_generator.py:24 | the line is the longest run of chunks that fits, minus one trailing whitespace chunk; only a chunk longer than the width is cut, at `LongWordCut`, and then at most one trailing whitespace piece is dropped |
| TextWrap.WrapChunks | card_generator.py:24 | every line is at most the width, and the lines hold exactly the visible characters of the chunks, in order |
| TextWrap.Wrap | card_generator.py:24 | `textwrap.wrap(p, width)` returns lines of at most `width` characters |
| TextWrap.WrapParagraphs | card_generator.py:18-26 | the lines of `wrap_text` are each at most 40 characters |
| TextWrap.WrapParagraphsNonBlank | card_generator.py:18-26 | wrapping keeps every visible character of the text, in order |
| TextWrap.VisibleTextHasLines | card_generator.py:18-26 | a text with a visible character wraps to at least one line |
| TextWrap.WrapAllAppend | card_generator.py:22-25 | the lines of consecutive paragraphs are the lines of each, concatenated in paragraph order |
| TextWrap.ParagraphsIndependent | card_generator.py:22-26 | the lines of `a + "\n" + b` are the lines of `a` followed by those of `b` |
| TextWrap.BlankParagraphHasNoLines | card_generator.py:24 | a blank paragraph contributes no lines |
| TextWrap.FitsOnOneLine | card_generator.py:24 | a paragraph no longer than the width, with no tab or newline and no trailing space, is its own single line |
| Drawing.Canvas.constructor | card_generator.py:47-49 | a fresh background of the given width with nothing drawn |
| Drawing.Canvas.DrawText | card_generator.py:36 | `draw.text` appends one text operation at the given position |
| Drawing.Canvas.PastePhoto | card_generator.py:74-75 | `paste` appends one photo operation |
| Drawing.LinesAt | card_generator.py:33-38 | one text operation per line, and the cursor ends one `font.size + 5` step below y per line |
| Drawing.LinesAtGeometry | card_generator.py:33-38 | line i is drawn at `(x, y + i * (size + 5))`, and the cursor ends at `y + n * (size + 5)` |
| Drawing.LinesAtAppend | card_generator.py:78-93 | drawing two runs of lines one after the other is the same as drawing them as one run |
| Drawing.BlocksAreStack | card_generator.py:78-93 | drawing blocks one below the other equals drawing all their wrapped lines from the first block's cursor |
| Drawing.StackNonBlank | card_generator.py:78-93 | the lines of all blocks hold exactly the blocks' visible characters |
| Drawing.StackHasLinePerBlock | card_generator.py:78-93 | every block with a visible character gives at least one line |
| CardGenerator.WrapText | card_generator.py:18-26 | the loop that extends `lines` paragraph by paragraph returns the wrapped paragraphs in order |
| CardGenerator.DrawWrappedText | card_generator.py:28-38 | the canvas gains one text operation per wrapped line, and the returned y is the cursor below the last line |
| CardGenerator.PhotoSource | card_generator.py:52-56 | the given path when truthy and loadable, otherwise the placeholder when loadable, otherwise none; the result always loads |
| CardGenerator.CenterX | card_generator.py:61 | `width // 2 - (bbox[2] - bbox[0]) // 2` centres the text box to within one pixel |
| CardGenerator.DrawHead | card_generator.py:58-75 | the canvas gains the title, the optional date line and the photo |
| CardGenerator.DrawBody | card_generator.py:77-93 | the canvas gains the truthy blocks in order from y = 450, and the returned y is the final cursor |
| CardGenerator.GenerateMemorialCard | card_generator.py:40-93 | the render result is that of `Plan` |
| CardGenerator.ThenIfBlocks | card_generator.py:81-93 | a skipped block leaves the cursor and canvas as they were; a drawn block is one more block in the list |
| CardGenerator.BodyIsBlocks | card_generator.py:78-93 | the four conditional blocks draw exactly the texts of the truthy fields, in the order description, burial place, awards, military service |
| CardGenerator.PlanPage | card_generator.py:46-93 | a rendered card is the head followed by the wrapped lines of the blocks from (50, 450) |
| CardGenerator.HeadLayout | card_generator.py:58-75 | title at y = 30 and centred; a date line at y = 80 exactly when a date is truthy, reading `"{birth} – {death}"`; the photo at `(width // 2 - 125, 130)`, 250 by 300 |
| CardGenerator.Plan | card_generator.py:40-93 | the render never stops on a missing key, because every field is read with `get` |
| CardGenerator.PlanOutcome | card_generator.py:46-62 | the render fails exactly when the background, or both the photo and the placeholder, fail to open, or the name is `None`; otherwise it succeeds |
| CardGenerator.PlanCursor | card_generator.py:77-93 | the final cursor is 450 plus 27 per drawn line, and at least 27 per drawn block |
| CardGenerator.BlocksAreVisible | card_generator.py:82-93 | the drawn blocks are those of the truthy fields, in drawing order; each begins with its field's label (`DrawnLabels`) and so has a visible character |
| CardGenerator.MissingPhotoIsPlaceholder | card_generator.py:52-56 | a falsy or unloadable photo path renders exactly as the placeholder path would |
| CardGenerator.FalsyBlockSkipped | card_generator.py:81-93 | a falsy block field renders exactly as an absent one |
| CardGenerator.SameFieldsSameCard | card_generator.py:52-93 | records that differ only in the photo path, with the same photo chosen, or only in a falsy block field, render the same card |
| CardGenerator.ExampleCard | card_generator.py:40-93 | the sample record with no photo renders the centred title, the date line "01.01.1950 – 02.02.2020", the placeholder, and one awards line "Награды: Medal A, Medal B" at (50, 450); the cursor ends at 477 |
| CardGenerator.ExampleHead | card_generator.py:58-75 | the head of the sample record: title, date line and placeholder photo, with their positions |
| LegacyCard.WrapText | Card/card.py:17-23 | the result is the wrapped paragraphs at width 40, whatever the font and maximum width |
| LegacyCard.DrawWrappedText | Card/card.py:26-33 | one text operation per wrapped line, each `font.size + 5` below the previous one, and the returned y is the cursor below the last line |
| LegacyCard.PhotoSource | Card/card.py:43-46 | the given path whenever the key is present and the path loads, even when it is empty; the placeholder only when the key is absent or the path fails |
| LegacyCard.CenterX | Card/card.py:49 | `width // 2 - bbox[2] // 2` centres on the right edge of the box alone |
| LegacyCard.Chars | Card/card.py:68 | iterating over a string yields its characters one by one |
| LegacyCard.EmptyDatesText | Card/card.py:53 | the date text is `"{birth} – {death}"`; it reads " – " for two empty dates and "None – None" for two `None`s |
| LegacyCard.DrawHead | Card/card.py:48-59 | either the title, the date line and the photo are drawn, or the first missing key or `None` name is reported |
| LegacyCard.DrawBody | Card/card.py:61-69 | all four blocks are drawn from y = 450, or the first missing key is reported |
| LegacyCard.GenerateMemorialCard | Card/card.py:36-69 | the render result is that of `Plan` |
| LegacyCard.BodyIsBlocks | Card/card.py:65-69 | the four unconditional blocks are drawn one below the other |
| LegacyCard.Plan | Card/card.py:36-69 | a key that stops the render is one of the seven read with `data[key]`, and it is missing from the record |
| LegacyCard.PlanOutcome | Card/card.py:36-69 | the card renders exactly when the background and a photo load, all seven keys are present, and neither the name nor the awards is `None`; a missing key that is reported is one of the seven |
| LegacyCard.TextsFound | Card/card.py:49-69 | all texts can be read exactly when all seven keys are present and neither the name nor the awards is `None` |
| LegacyCard.FirstMissingKey | Card/card.py:49-69 | the render stops at a key exactly when it is the first missing one in the reading order, the name read before it was not `None`, and, for the last key, neither were the awards |
| LegacyCard.NoneStops | Card/card.py:49-68 | a `None` stops the render exactly when it is the name, or when it is the awards and every key read before them is present |
| LegacyCard.DateAlwaysDrawn | Card/card.py:48-59 | every rendered card has the title at y = 30, the date line at y = 80, and the photo at `(width // 2 - 125, 130)` |
| LegacyCard.PlanCursor | Card/card.py:62-69 | the cursor is 450 plus 27 per line, and at least 450 + 4 * 27 |
| LegacyCard.BlocksVisible | Card/card.py:66-69 | all four blocks are present; they begin with the description, burial, awards and military labels in that order, and each has a visible character |
| LegacyCard.NoPhotoIsPlaceholder | Card/card.py:43-46 | a `None` photo path fails to open, and the card falls back to the placeholder |
| CardVariants.VariantsAgree | card_generator.py:40-93 | on a complete record whose photo loads and whose title and date boxes start at x = 0, both renderers draw the same card |
| CardVariants.HeadsAgree | Card/card.py:48-59 | under those conditions the two heads are equal |
| CardVariants.BlocksAgree | Card/card.py:65-69 | with all block fields truthy and the awards a list, both renderers draw the same four block texts |
| CardVariants.EmptyDatesDiffer | Card/card.py:53-55 | with two empty dates the new renderer goes from the title straight to the photo, while the old one draws " – " at y = 80 |
| CardVariants.MissingDescriptionDiffers | Card/card.py:66 | without a description the new renderer draws the card, and the old one fails with a missing key |
| CardVariants.AwardsStringSpelledOut | Card/card.py:68 | the old renderer spells a string of awards out: the i-th character at position 3i and ", " between each two characters, while the new one draws the string as is |
| App.GetAwardsList | app.py:82-85 | `[]` for no awards or an empty string; otherwise the comma count plus 1 awards, where the i-th is the i-th comma-free piece of the text, stripped |
| App.AwardsRoundTrip | app.py:82-85 | awards typed as stripped, comma-free items joined with ", " are parsed back into exactly those items |
| App.PaddedRoundTrip | app.py:84 | splitting and stripping undo a join with a separator plus blank padding |
| App.IsActive | app.py:57-59 | a user is active exactly when not blocked |
| App.RoleRequired | app.py:104-117 | an anonymous visitor goes to login, a user whose role is not listed goes to the index, and only otherwise does the view run |
| App.LoginRequired | app.py:473-475 | only an anonymous visitor is turned away, and only to the login page |
| App.UserWithEmail | app.py:160 | finds the user holding an e-mail exactly when one exists |
| App.Login | app.py:187-206 | the user with that e-mail is refused when blocked, and logged in exactly when active and the password checks |
| App.BlockedNeverLogsIn | app.py:194-198 | a blocked user is refused whatever the password |
| App.Toggled | app.py:303 | only the chosen user's block flag changes |
| App.ToggleFlipsActive | app.py:57-59 | blocking or unblocking flips whether that user may log in, and leaves everyone else's as it was |
| App.ToggleTwice | app.py:303 | toggling twice restores the users |
| App.ToggleKeepsEmails | app.py:303 | toggling keeps e-mails unique |
| App.RecordOf | app.py:376-378 | the record carries the form's fields, the photo path and the status |
| App.CardDataOf | app.py:428-437 | the card dictionary of a record holds all eight keys: the name, each nullable field as it is (`None` included), and the parsed awards list |
| App.RecordCardRenders | app.py:426-445 | a stored record's card renders exactly when the background and a photo load |
| App.Store.constructor | app.py:39-96 | an empty database: no users, no records, an empty log, ids starting at 1 |
| App.Store.Register | app.py:147-184 | a new active user with role "user" is added under a fresh id exactly when the e-mail is free; otherwise nothing changes; e-mails stay unique |
| App.Store.ToggleUserBlock | app.py:296-308 | an admin flips another user's block flag and logs "Пользователь {email} {status}"; self-blocking is refused; an unknown id is not found |
| App.Store.ApproveRecord | app.py:319-333 | only a pending record becomes approved; a record in any other status is left unchanged |
| App.Store.EditRecord | app.py:387-408 | every field is replaced from the form; the photo path changes only on an upload; the status is kept |
| App.Store.CreateRecord | app.py:355-383 | a record created by an administrator is stored approved under a fresh id |
| App.Store.CreateUserRecord | app.py:528-570 | only a logged-in user with role "user" may submit a record, which is stored pending |
| App.Store.Profile | app.py:473-502 | a user's names, e-mail and phone are updated unless the new e-mail belongs to another user; e-mails stay unique |

## Left out

- Pixel work is not modelled: fonts, image decoding, resizing and saving. `textbbox` is a parameter (`Env.textbbox`), image loading is a predicate on paths (`Env.loadable`), and the background width is a number.
- The `print` after saving is left out (card_generator.py:97 and Card/card.py:73).
- The sample render that Card/card.py runs when it is imported (lines 77-89) is left out.
- TextWrap.Chunks: splits at whitespace only. `textwrap`'s word separator also breaks after hyphens and em dashes inside a word. That rule is not modelled.
- The model draws the labels the code draws, such as "Награды: ".
- Flask and SQLAlchemy are not modelled: routing, templates, flash messages, redirects, GET rendering and query building. The database is two maps and a list; ids are handed out by counters.
- Form validation (forms.py) is not part of this model.
- Password hashing is not modelled. `check_password` is the parameter `checkPassword`.
- File uploads are reduced to the saved path (`upload`); `secure_filename` and saving the file are left out.
- App.Store.EditRecord, App.Store.CreateRecord, App.Store.CreateUserRecord: when the name is missing the source raises a database error on the NOT NULL column. The model reports `Refused(MissingFullName)` and changes nothing.
- App.Store.Current: treats every user the session names as logged in. Flask-Login's own handling of inactive users is not part of this model.
- Timestamps and the `conflict` column of a record are left out.
- The search pages (`ilike` filters), the random selections of `map_view` and `random_cards`, and the undecorated `generate_card` that the routed one shadows (app.py:334-353) are left out.
- Routes outside these rules are left out: logout, change_password, delete_record and admin_settings.

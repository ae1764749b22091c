# Mirotok: a verified model of the card reading bot

Mirotok is a Telegram bot with a Django back end. The client picks five picture cards: the first three are affirmative, the last two negative. The bot then reads the selection. It shows the description lines, an energy score, and the bone codes carried by one side but not the other. It also tallies four need tags and gives each card's recommendation.

Payments are handled as requests. An administrator approves a request, and the approval extends the client's subscription.

This project models, in Dafny:
- **catalog.dfy:** loading the card catalog from its CSV rows.
- **formulas.dfy:** the reading formulas and their text formatting.
- **bot.dfy:** the bot's input handling and keyboards:
  - picture numbers typed as text or sent by the web app;
  - their validation and lookup;
  - request status lines and paging;
  - tariff button rows.
- **api.dfy:** the back end's `pre_save` hook on payment requests and the list of requests still pending.

Shared helpers live in three files:
- `text.dfy`: digits, `int`/`str`, `join`, `split` and `replace`.
- `seqs.dfy`: subsequence and no-repeats.
- `wrappers.dfy`: `Option` and `Result`.

Modelling choices:
- A card record is a datatype. `Unknown` is the empty dict the catalog hands out for a missing id.
- Python's exceptions are `Result` failures carrying the offending index or tag.
- Loops that update a variable are methods with loop invariants, each proved equal to a specification function. The properties are lemmas about those functions.
- The back end's hook is a method of a `Database` class that owns the request and user tables.
- Network calls, environment variables and the clock are parameters. `ADMIN_LIST_LIMIT` is `limit`, and today's date is a day number `today`.

## Model

| member | source | states |
|---|---|---|
| Catalog.FindBones | MirotorBot/main.py:41 | every match of the bone pattern is a category letter C, T, L or S followed by one or two digits |
| Catalog.FindBonesJoin | MirotorBot/main.py:41 | a cell listing bone codes separated by any text without a digit (nothing, ",", "/") is read back as exactly those codes, in order |
| Catalog.FindTags | MirotorBot/main.py:46 | every match of the tag pattern is two capital Cyrillic letters А to Я |
| Catalog.FindTagsJoin | MirotorBot/main.py:46 | a cell listing tags separated by any text without a letter of `[А-Я]` (nothing, ",", "/") is read back as exactly those tags, in order |
| Catalog.ParseRow | MirotorBot/main.py:38-49 | a row of at least seven columns gives a card whose id is the first column and whose bones and tags are pattern matches |
| Catalog.LoadCatalog | MirotorBot/main.py:33-49 | the loop skips the header and fills the dict row by row; it stops at the first short row (the `IndexError`) |
| Catalog.FailureSticks | MirotorBot/main.py:33-49 | once a short row has stopped loading, later rows change nothing |
| Catalog.LoadFailsOnShortRow | MirotorBot/main.py:35-39 | loading fails exactly when some data row, not the header, has fewer than seven columns; the reported row is the first such row |
| Catalog.LoadedKeys | MirotorBot/main.py:38-40 | the catalog's keys are exactly the first columns of the data rows, and each record is a card under its own id |
| Catalog.LoadedFromLastRow | MirotorBot/main.py:39 | for a repeated id, the record comes from the last row carrying it |
| Formulas.PowerCases | MirotorBot/formulas.py:325-326 | a card has no numeric power exactly when it is `{}` or its power text holds no digit; a power written in digits only reads as that number |
| Formulas.Formula2 | MirotorBot/formulas.py:317-333 | `None` unless there are five cards; otherwise the first three powers minus the last two; fails at the first card whose power has no digit or which is missing from the catalog, with `TypeError` exactly for the missing one and `ValueError` otherwise |
| Formulas.ScoreTerms | MirotorBot/formulas.py:320-332 | the score is power 1 + power 2 + power 3 - power 4 - power 5 |
| Formulas.ScoreExample | MirotorBot/formulas.py:326 | the digits of a power such as "10W" are read as 10, so 10+5+3-2-1 scores 15 |
| Formulas.PrefixedDescs | MirotorBot/formulas.py:343-349 | one line per card: the prefix followed by that card's description |
| Formulas.Formula1 | MirotorBot/formulas.py:336-352 | `None` unless there are five cards; otherwise "• НЕ " lines for the first three cards and "• " lines for the last two, joined by line breaks |
| Formulas.DescriptionTextLines | MirotorBot/formulas.py:336-352 | when no description holds a line break, the text splits back into exactly five lines: three negated, two plain, in card order |
| Formulas.Recommendation | MirotorBot/formulas.py:30-35 | the header "Рекомендация:" followed by one bullet per card, in order |
| Formulas.RecommendationItemsAppend | MirotorBot/formulas.py:32-33 | the recommendations of a longer selection are those of its first part followed by those of the rest |
| Formulas.Degree | MirotorBot/formulas.py:164-169 | "--" exactly for zero; otherwise (|x| - 1) · 15 followed by a degree sign |
| Formulas.DegreeSymmetric | MirotorBot/formulas.py:164-169 | a tally and its negation show the same degree |
| Formulas.DegreeDeterminesMagnitude | MirotorBot/formulas.py:164-169 | equal degree texts come from tallies of equal magnitude |
| Formulas.Color | MirotorBot/formulas.py:172-177 | blue exactly for negative, orange exactly for positive, black exactly for zero |
| Formulas.ResString | MirotorBot/formulas.py:180-181 | prefix "ВП" exactly for a positive value, "НЗ" exactly for a negative one, and " --" exactly for zero |
| Formulas.ResStringDeterminesValue | MirotorBot/formulas.py:180-181 | equal result strings come from equal values |
| Formulas.Without | MirotorBot/formulas.py:292-298 | removing the items of another list never lengthens a list |
| Formulas.WithoutMembers | MirotorBot/formulas.py:292-298 | an item stays exactly when it is in the list and not in the other |
| Formulas.WithoutAppend | MirotorBot/formulas.py:292-298 | the removal distributes over concatenation |
| Formulas.WithoutKeepsOrder | MirotorBot/formulas.py:292-298 | what stays keeps its order |
| Formulas.BonesSum | MirotorBot/formulas.py:157-161 | the loop computes the union of the cards' bone codes, in first-seen order |
| Formulas.BonesUnionMembers | MirotorBot/formulas.py:157-161 | the union holds exactly the codes some card carries |
| Formulas.BonesUnionNoRepeats | MirotorBot/formulas.py:160 | when no card repeats a code, the union repeats none |
| Formulas.WithoutNoRepeats | MirotorBot/formulas.py:160 | filtering a list without repeats leaves one without repeats |
| Formulas.RepeatWithinCardSurvives | MirotorBot/formulas.py:160 | the membership test runs before the extension, so a code repeated within one card is kept twice |
| Formulas.SortKey | MirotorBot/formulas.py:270-280 | the key is never negative; 0 for a code whose first character is none of the four letters; a bone code's key lies in its category's hundred (C 0-99, T 100-199, L 200-299, S 300-399) |
| Formulas.SortKeyOrder | MirotorBot/formulas.py:270-280 | for bone codes, key order is category order C < T < L < S, then numeric order; equal keys mean the same category and number |
| Formulas.Insert | MirotorBot/formulas.py:302 | insertion adds exactly the new element to the list's multiset |
| Formulas.InsertSorted | MirotorBot/formulas.py:302 | inserting into a list sorted by key gives a list sorted by key |
| Formulas.SortByKey | MirotorBot/formulas.py:302 | the sorted list is ordered by key and is a permutation of its input |
| Formulas.InsertStable | MirotorBot/formulas.py:302 | an element inserted into a list goes before the elements of that list with the same key, so earlier elements stay earlier |
| Formulas.SortStable | MirotorBot/formulas.py:302 | the sort is stable: elements with equal keys keep their relative order |
| Formulas.RemoveFirst | MirotorBot/formulas.py:294 | `list.remove` takes away one occurrence of the item |
| Formulas.RemoveFirstAfter | MirotorBot/formulas.py:294 | the removed occurrence is the first |
| Formulas.RemoveShared | MirotorBot/formulas.py:289-298 | removing each shared item from the copy leaves exactly the items absent from the other side, duplicates included |
| Formulas.Formula3 | MirotorBot/formulas.py:283-314 | `None` unless there are five cards; otherwise the difference of the first three cards' union and the last two cards' union, both ways |
| Formulas.ArrangeSides | MirotorBot/formulas.py:300-307 | each non-empty side is sorted and becomes a line "Реальные: …" or "Скрытые: …" |
| Formulas.BoneDiffExclusive | MirotorBot/formulas.py:283-307 | a code is actual exactly when the first three cards carry it and the last two do not, hidden for the converse, and never both |
| Formulas.SortByKeyMembers | MirotorBot/formulas.py:302-305 | sorting keeps exactly the same members |
| Formulas.BoneDiffSorted | MirotorBot/formulas.py:300-306 | each side is sorted, is a permutation of its filtered union, and keeps equal keys in their original order |
| Formulas.ArrangeTextLines | MirotorBot/formulas.py:300-307 | the text splits back into its bone lines, or one empty line when both sides are empty |
| Formulas.BoneDiffLines | MirotorBot/formulas.py:300-307 | for five cards the text of formula3 splits back into its "Реальные"/"Скрытые" lines |
| Formulas.Tally | MirotorBot/formulas.py:226-241 | the tally is defined on exactly the four need tags ЛР, ЗД, СМ, ФБ |
| Formulas.Partition | MirotorBot/formulas.py:243-250 | the loop splits the tally into its positive entries and its negative entries, in tag order |
| Formulas.SideMembers | MirotorBot/formulas.py:246-250 | an entry is on a side exactly when its value has that side's sign |
| Formulas.SideKeysInOrder | MirotorBot/formulas.py:246-250 | each side lists its tags in the tally's order |
| Formulas.ApplyTags | MirotorBot/formulas.py:234-241 | the inner loop succeeds exactly when every tag of the card is a key of the tally; the result adds (affirmative) or subtracts (negative) each tag's number of occurrences; a failure names the first tag that is not a key, all tags before it being keys |
| Formulas.TallyCard | MirotorBot/formulas.py:233-241 | after card `i` the tally is the affirmative counts minus the negative counts of the first `i + 1` cards, or the first unknown tag of the spread is reported |
| Formulas.TallyAfter | MirotorBot/formulas.py:233-241 | the tally after the first cards is defined on the four tags |
| Formulas.TallyAfterNone | MirotorBot/formulas.py:226-231 | before any card the four counts are zero |
| Formulas.TallyAfterAll | MirotorBot/formulas.py:233-241 | after the five cards the partial tally is the tally |
| Formulas.TallyStep | MirotorBot/formulas.py:233-241 | one card's step turns the partial tally into the next one |
| Formulas.UnknownAt | MirotorBot/formulas.py:236 | an unknown tag is the first unknown one, and the selection is not all known |
| Formulas.TallyTags | MirotorBot/formulas.py:233-241 | both loops succeed exactly when every tag is one of the four; the result is the affirmative counts minus the negative counts; a failure names the first unknown tag |
| Formulas.Formula4 | MirotorBot/formulas.py:220-267 | `None` unless there are five cards; the needs text when every tag is known; otherwise the `KeyError` with the first unknown tag |
| Formulas.SideKeysMembers | MirotorBot/formulas.py:246-250 | a tag is among a side's keys exactly when it has an entry on that side |
| Formulas.SidesSplitTally | MirotorBot/formulas.py:246-250 | a tag is real exactly when its count is positive, hidden exactly when it is negative, and never both |
| Formulas.NeedsClassified | MirotorBot/formulas.py:220-250 | a need is real exactly when the affirmative cards carry it more often than the negative ones, and hidden exactly when less often |
| Formulas.RepeatedTagCounts | MirotorBot/formulas.py:235-236 | a tag repeated on one card counts once per occurrence |
| Formulas.NeedsTextLines | MirotorBot/formulas.py:252-260 | the needs text splits into the header line followed by the real and hidden lines |
| Formulas.NeedsOfLines | MirotorBot/formulas.py:252-260 | for five cards the text of formula4 splits into the header line and one line per non-empty side |
| Bot.DigitTokens | MirotorBot/main.py:927 | every token of the number pattern has one or two digits |
| Bot.DigitTokensCoverDigits | MirotorBot/main.py:927 | the tokens cut the text's digits into pieces: none is lost or invented, and their order is kept |
| Bot.NoTokensNoDigits | MirotorBot/main.py:927-929 | there are no tokens exactly when the text holds no digit |
| Bot.DigitTokensOfSpaced | MirotorBot/main.py:927 | numbers of one or two digits separated by spaces are read back as exactly those numbers |
| Bot.ThreeDigitsSplit | MirotorBot/main.py:927 | "123" is read as "12" and "3" |
| Bot.ZeroPaddedNumber | MirotorBot/main.py:927-938 | "07" passes the range check but is looked up under "07", not "7" |
| Bot.Lookup | MirotorBot/main.py:843 | a key of the catalog gives its record; in a loaded catalog the `{}` default comes back exactly for a key that is not there |
| Bot.SelectionHasSortKeys | MirotorBot/main.py:843 | every record a loaded catalog hands out, and `{}`, carries only bone codes that `sort_f` accepts, so any selection meets formula3's demand |
| Bot.SelectCard | MirotorBot/main.py:840-848 | the records of the keys in order, or `None` as soon as a record repeats an earlier one |
| Bot.SelectedDistinctKnown | MirotorBot/main.py:840-848 | distinct keys that are all in a loaded catalog select their own records |
| Bot.SelectedRepeatedKey | MirotorBot/main.py:843-844 | the same key twice is refused |
| Bot.SelectedUnknownKeys | MirotorBot/main.py:842-845 | two different missing keys are both `{}` and refused as a repetition; one missing key is kept as an empty record |
| Bot.SelectedNothing | MirotorBot/main.py:840-848 | an empty selection is the empty list, which the handlers treat as an error |
| Bot.ManualTest | MirotorBot/main.py:925-941 | the text handler's answer: no number, not five numbers, out of range, unexpected, or the reading |
| Bot.ManualReplyCases | MirotorBot/main.py:925-941 | each answer to a text and exactly when it is given; a reading has the five records of the typed numbers |
| Bot.ManualReadsFiveNumbers | MirotorBot/main.py:925-941 | five distinct known picture numbers typed with spaces are read as their records, in the order typed |
| Bot.WebApp | MirotorBot/main.py:868-881 | the web-app answer: any zero item is unexpected, then the range is checked, then the selection |
| Bot.WebReadingChecked | MirotorBot/main.py:868-881 | a web-app reading has one distinct record per item, every item in 1..49, and at least one item |
| Bot.WebAcceptsFourPictures | MirotorBot/main.py:868-892 | four distinct pictures from the web app are accepted as a reading of four cards |
| Bot.WebCheckedReadsFive | MirotorBot/main.py:931-932 | with the count check, every reading has five cards, and five items are answered as before |
| Bot.GetStatus | MirotorBot/main.py:612-617 | "Выполнено" exactly for an approved request, "Отклонена" exactly for one looked at and not approved, "В обработке" exactly for one neither approved nor looked at |
| Bot.StatusPending | MirotorBot/main.py:612-617 | a request is shown as in progress exactly when it is on the admin list of pending requests |
| Bot.StatusDistinguishes | MirotorBot/main.py:612-617 | two requests show the same status exactly when both are approved, or neither is and both have the same viewed flag |
| Bot.Remaining | MirotorBot/main.py:634-635 | never negative; zero exactly when the pages so far cover the count; otherwise the shown records plus the remainder make the count |
| Bot.RemainingNextPage | MirotorBot/main.py:673-674 | the next page's remainder is this page's minus one page, floored at zero |
| Bot.RequestButtons | MirotorBot/main.py:643-650 | at most two buttons: "Назад" exactly when the offset is non-zero and "Далее" exactly while records remain, and no other button |
| Bot.RequestsNextKeyboard | MirotorBot/main.py:661-662 | nothing is sent exactly for a negative page; otherwise the row of the request list for that page |
| Bot.RequestButtonsShape | MirotorBot/main.py:643-650 | "Назад" exactly on pages after the first, "Далее" exactly while records remain, "Назад" first, and nothing else |
| Bot.NextThenBack | MirotorBot/main.py:661-691 | "Далее" leads to a page whose "Назад" returns to this page |
| Bot.AdminKeyboard | MirotorBot/main.py:469-477 | two rows; the first holds "Обновить", the second is "Назад" to the admin menu alone |
| Bot.AdminKeyboardShape | MirotorBot/main.py:469-477 | two rows: an optional "Показать еще" then "Обновить", and "Назад" to the admin menu; "Показать еще" exactly while records remain |
| Bot.AdminNextKeyboardAsWritten | MirotorBot/main.py:508-516 | as written, the keyboard of a later page holds no button at all |
| Bot.AdminNextKeyboardLosesButtons | MirotorBot/main.py:508-516 | as written, a later page attaches no buttons even when records remain |
| Bot.AdminNextKeyboardPages | MirotorBot/main.py:469-477 | corrected: every later page offers "Показать еще" exactly while records remain, plus "Обновить" and "Назад", and the chain ends after the last page |
| Bot.TariffRows | MirotorBot/main.py:732-733 | `len // 2 + 1` rows of two buttons that together give back every button in order; the last row has at most one button and is empty exactly for an even count |
| Api.Database.MyCallback | Mirotor/api/views.py:84-100 | the hook leaves the requests as they are and updates users exactly as the hook function says |
| Api.Hook | Mirotor/api/views.py:84-100 | a raised exception leaves every subscription as it was, and no user is ever added or removed |
| Api.HookNewRequest | Mirotor/api/views.py:86-87 | saving an unsaved request checks nothing and changes nothing |
| Api.HookImmutableFields | Mirotor/api/views.py:89-94 | owner, amount and tariff are checked in that order; the first that differs names the exception, which changes no user |
| Api.HookExtendsOnApprovalOnly | Mirotor/api/views.py:95-100 | a subscription changes only when a stored request goes from not approved to approved, and then only to the extended end |
| Api.HookApproval | Mirotor/api/views.py:95-100 | an approval extends the owner's subscription, or raises `DoesNotExist` when there is no such user |
| Api.ExtendedBounds | Mirotor/api/views.py:98-99 | the tariff is counted from the later of the old end and today, so the new end is no earlier than either |
| Api.HookIdempotent | Mirotor/api/views.py:95 | re-saving an approved request, or saving a request as not approved, changes no subscription |
| Api.HookResave | Mirotor/api/views.py:84-100 | saving the same request again after it was stored changes nothing more |
| Api.HookOnlyOwner | Mirotor/api/views.py:96-100 | only the owner's row can change; no user is added or removed |
| Api.Pending | Mirotor/api/views.py:58 | the admin queryset is no longer than the table |
| Api.PendingMembers | Mirotor/api/views.py:58 | the admin list holds exactly the requests neither approved nor viewed |
| Api.PendingCounts | Mirotor/api/views.py:58 | every waiting request is listed as many times as the table holds it, and every other request not at all |
| Api.PendingKeepsOrder | Mirotor/api/views.py:58 | the admin list keeps the order in which the model lists the table |

## Left out

- Images and plots are not modelled. This covers `generate_image`, `get_image`, `generate_plot`, `generate_ph_plot` and the PNG buffers returned by formula3 and formula4. Only the texts are modelled, because the pixels are drawing-library output.
- `get_percent` is not modelled because it is floating-point arithmetic. `get_time` is not modelled because it is date parsing.
- `\d` is modelled as the ASCII digits 0 to 9. Python's `re` on `str` also matches other Unicode decimal digits.
- Formulas.SortKey requires `HasSortKey`. This stands for the `ValueError` that `int()` raises on a code without a number. The model does not reproduce `int()` tolerating surrounding whitespace or a sign: every bone code comes from the bone pattern, so it is a letter and one or two digits.
- Bot.WebApp takes the JSON items as integers. The handler also accepts strings that `int()` parses, and it raises on items `int()` rejects.
- The subscription check at the start of `web_app` (main.py:854-866) is a network query, so it is not modelled.
- The web-app and text handlers are modelled up to the point where the formulas run. Posting the result, the media groups and the messages to doctors are I/O.
- The aiohttp requests behind the admin and request lists are not modelled. The record count is a parameter.
- Telegram's handling of an empty keyboard row is not modelled.
- The tariff buttons are built from a dict filled from the back end, which is I/O. Bot.TariffRows is generic in the button type.
- Api.Database.MyCallback treats dates as unbounded day numbers, so `OverflowError` past year 9999 is not modelled.
- The user table is a map keyed by `telegram_id`, so the model relies on that id being unique among users, as `unique=True` on the field (Mirotor/api/models.py:15) makes it. The request table is a map from its primary key.
- Api.Pending: the order of the admin list is the model's choice, not a promise of the program. `Request` has no `Meta.ordering` and the queryset (Mirotor/api/views.py:58) no `order_by`, so the database may return the pending requests in any order. The model lists them in table order. Because no order is fixed, the limit/offset pages that the bot fetches one after another (MirotorBot/main.py:451, 491) can repeat or skip requests; the model does not capture that.
- The async handlers, the FSM states and the other Django views are not modelled. The other views are plain CRUD.

## Findings

| source | as written | input that shows it | evidently intended | confidence | as-written member | corrected member |
|---|---|---|---|---|---|---|
| MirotorBot/main.py:508-516 | the next-page handler of the admin list builds its "Показать еще" and "Обновить" buttons but never adds them to the keyboard, and it has no "Назад" row | 25 pending requests, ten to a page, page 1: five remain, but the message carries an empty keyboard | the same keyboard as the first page (main.py:469-477) | high; not executed | Bot.AdminNextKeyboardLosesButtons | Bot.AdminNextKeyboardPages |
| MirotorBot/main.py:868-881 | the web-app handler never checks that five pictures were chosen | items [1, 2, 3, 4] from the web app are accepted as a reading of four cards; formula3 then returns `None` (formulas.py:284-285), and `image, _ = …` at main.py:892 raises `TypeError` after the score has been posted | reject any count other than five, as the text handler does (main.py:931-932) | medium; not executed | Bot.WebAcceptsFourPictures | Bot.WebCheckedReadsFive |

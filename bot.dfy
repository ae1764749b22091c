/** The bot's handling of what the user sends and what it shows back
    (MirotorBot/main.py): picture numbers typed as text or sent by the web app,
    their validation and lookup in the card catalog, the status line of a payment
    request, the paging arithmetic and keyboards of the request lists, and the
    layout of the tariff buttons in rows of two. */
module Bot {
  import opened Text
  import opened Wrappers
  import opened Seqs
  import opened Catalog
  import Api
  import Formulas

  // ---------------------------------------------------------------------------
  // re.findall(r'\d{1,2}', text)

  /** Left-to-right, non-overlapping, greedy matches of `\d{1,2}`. */
  function DigitTokens(s: string): (r: seq<string>)
    ensures forall i :: 0 <= i < |r| ==> 1 <= |r[i]| <= 2 && AllDigits(r[i])
    decreases |s|
  {
    if s == [] then []
    else if !IsDigit(s[0]) then DigitTokens(s[1..])
    else if |s| >= 2 && IsDigit(s[1]) then [s[..2]] + DigitTokens(s[2..])
    else [s[..1]] + DigitTokens(s[1..])
  }

  lemma ConcatCons(a: string, t: seq<string>)
    ensures Concat([a] + t) == a + Concat(t)
  {
    assert ([a] + t)[1..] == t;
  }

  /** The tokens are the text's digits cut into pieces: no digit is lost, none is
      invented, and their order is kept. */
  lemma {:induction false} DigitTokensCoverDigits(s: string)
    ensures Concat(DigitTokens(s)) == DigitsOnly(s)
    decreases |s|
  {
    if s == [] {
    } else if !IsDigit(s[0]) {
      DigitTokensCoverDigits(s[1..]);
    } else if |s| >= 2 && IsDigit(s[1]) {
      DigitTokensCoverDigits(s[2..]);
      ConcatCons(s[..2], DigitTokens(s[2..]));
      assert s[1..][0] == s[1] && s[1..][1..] == s[2..];
      assert s[..2] == [s[0]] + [s[1]];
    } else {
      DigitTokensCoverDigits(s[1..]);
      ConcatCons(s[..1], DigitTokens(s[1..]));
      assert s[..1] == [s[0]];
    }
  }

  /** A text yields no token exactly when it holds no digit. */
  lemma NoTokensNoDigits(s: string)
    ensures DigitTokens(s) == [] <==> DigitsOnly(s) == []
  {
    DigitTokensCoverDigits(s);
    var t := DigitTokens(s);
    if t != [] {
      ConcatCons(t[0], t[1..]);
      assert t == [t[0]] + t[1..];
    }
  }

  /** A number of one or two digits followed by a non-digit is one token. */
  lemma DigitTokensNumber(a: string, t: string)
    requires 1 <= |a| <= 2 && AllDigits(a)
    requires t == [] || !IsDigit(t[0])
    ensures DigitTokens(a + t) == [a] + DigitTokens(t)
  {
    var s := a + t;
    assert IsDigit(s[0]);
    if |a| == 2 {
      assert IsDigit(s[1]);
      assert s[..2] == a && s[2..] == t;
    } else {
      assert |s| >= 2 ==> s[1] == t[0];
      assert s[..1] == a && s[1..] == t;
    }
  }

  /** Numbers of one or two digits written with single spaces between them are read
      back as exactly those numbers. */
  lemma {:induction false} DigitTokensOfSpaced(parts: seq<string>)
    requires |parts| >= 1
    requires forall i :: 0 <= i < |parts| ==> 1 <= |parts[i]| <= 2 && AllDigits(parts[i])
    ensures DigitTokens(Join(parts, " ")) == parts
  {
    if |parts| == 1 {
      DigitTokensNumber(parts[0], []);
      assert parts[0] + [] == parts[0];
    } else {
      var rest := Join(parts[1..], " ");
      assert DigitTokens(" " + rest) == parts[1..] by {
        DigitTokensOfSpaced(parts[1..]);
        assert (" " + rest)[1..] == rest;
      }
      assert Join(parts, " ") == parts[0] + (" " + rest);
      DigitTokensNumber(parts[0], " " + rest);
      HeadTail(parts);
    }
  }

  lemma HeadTail(s: seq<string>)
    requires s != []
    ensures s == [s[0]] + s[1..]
  {
  }

  /** A number of three digits is cut after its first two. */
  lemma ThreeDigitsSplit()
    ensures DigitTokens("123") == ["12", "3"]
  {
    assert "123"[..2] == "12" && "123"[2..] == "3";
    assert "3"[..1] == "3" && "3"[1..] == "";
  }

  /** A zero-padded number is one token that passes the range check, yet it is looked
      up under its padded text. */
  lemma ZeroPaddedNumber()
    ensures DigitTokens("07") == ["07"]
    ensures PictureNumber("07") && "07" != IntToString(7)
  {
    assert "07"[..2] == "07" && "07"[2..] == "";
    assert DecimalValue("07") == 7 by {
      assert "07"[..1] == "0" && "0"[..0] == "";
    }
  }

  // ---------------------------------------------------------------------------
  // select_card

  /** `cards.get(key, {})` */
  function Lookup(catalog: map<string, Card>, key: string): (c: Card)
    ensures key in catalog ==> c == catalog[key]
    ensures Loaded(catalog) ==> (c.Unknown? <==> key !in catalog)
  {
    if key in catalog then catalog[key] else Unknown
  }

  /** The record of each key, in order. */
  function Resolve(catalog: map<string, Card>, keys: seq<string>): seq<Card> {
    seq(|keys|, i requires 0 <= i < |keys| => Lookup(catalog, keys[i]))
  }

  /** What `select_card` returns: the records of the keys, or `None` as soon as a
      record repeats an earlier one. */
  function Selected(catalog: map<string, Card>, keys: seq<string>): Option<seq<Card>> {
    var cards := Resolve(catalog, keys);
    if NoRepeats(cards) then Some(cards) else None
  }

  /** `select_card(data)` */
  method SelectCard(catalog: map<string, Card>, keys: seq<string>) returns (r: Option<seq<Card>>)
    ensures r == Selected(catalog, keys)
  {
    var result: seq<Card> := [];
    for i := 0 to |keys|
      invariant |result| == i
      invariant forall j :: 0 <= j < i ==> result[j] == Lookup(catalog, keys[j])
      invariant NoRepeats(result)
    {
      var card := Lookup(catalog, keys[i]);
      if card in result {
        var j :| 0 <= j < i && result[j] == card;
        assert Resolve(catalog, keys)[j] == Resolve(catalog, keys)[i];
        return None;
      }
      result := result + [card];
    }
    assert result == Resolve(catalog, keys);
    return Some(result);
  }

  /** A catalog as loading leaves it: every record is a card under its own id. */
  predicate Loaded(catalog: map<string, Card>) {
    forall k :: k in catalog ==> WellFormed(k, catalog[k])
  }

  /** The records of a loaded catalog, and `{}`, only carry codes that `sort_f`
      accepts, so `formula3` can be given any selection. */
  lemma SelectionHasSortKeys(catalog: map<string, Card>, keys: seq<string>)
    requires Loaded(catalog)
    ensures Formulas.BonesHaveSortKeys(Resolve(catalog, keys))
    ensures Selected(catalog, keys).Some? ==> Formulas.BonesHaveSortKeys(Selected(catalog, keys).value)
  {
  }

  /** Distinct keys that are all in a loaded catalog select their own records. */
  lemma SelectedDistinctKnown(catalog: map<string, Card>, keys: seq<string>)
    requires Loaded(catalog)
    requires forall i :: 0 <= i < |keys| ==> keys[i] in catalog
    requires NoRepeats(keys)
    ensures Selected(catalog, keys).Some?
    ensures var cards := Selected(catalog, keys).value;
      |cards| == |keys| && forall i :: 0 <= i < |keys| ==> cards[i].Card? && cards[i].id == keys[i]
  {
    var cards := Resolve(catalog, keys);
    forall i, j | 0 <= i < j < |cards|
      ensures cards[i] != cards[j]
    {
      assert cards[i].id == keys[i] && cards[j].id == keys[j];
    }
  }

  /** The same key twice is refused. */
  lemma SelectedRepeatedKey(catalog: map<string, Card>, keys: seq<string>, i: nat, j: nat)
    requires i < j < |keys| && keys[i] == keys[j]
    ensures Selected(catalog, keys) == None
  {
    assert Resolve(catalog, keys)[i] == Resolve(catalog, keys)[j];
  }

  /** Two different keys missing from the catalog are both `{}`, so they are refused
      as a repetition; a single missing key is kept as an empty record. */
  lemma SelectedUnknownKeys(catalog: map<string, Card>, keys: seq<string>, i: nat, j: nat)
    requires i < j < |keys| && keys[i] !in catalog && keys[j] !in catalog
    ensures Selected(catalog, keys) == None
    ensures Selected(catalog, [keys[i]]) == Some([Unknown])
  {
    assert Resolve(catalog, keys)[i] == Resolve(catalog, keys)[j];
    assert Resolve(catalog, [keys[i]]) == [Unknown];
  }

  /** Nothing to select gives an empty (and so falsy) selection. */
  lemma SelectedNothing(catalog: map<string, Card>)
    ensures Selected(catalog, []) == Some([])
  {
    assert Resolve(catalog, []) == [];
  }

  // ---------------------------------------------------------------------------
  // manual_test and web_app

  /** The bot's answer to a selection: one of the error messages, or the reading of
      the selected cards. */
  datatype Reply =
    | DontKnow      // "Я не знаю, что на это ответить"
    | NotFive       // "Должно быть 5 чисел"
    | OutOfRange    // "Номера картин должны быть от 1 до 49"
    | Unexpected    // "Непредвиденная ошибка!"
    | Reading(cards: seq<Card>)

  /** A token whose `int()` is a picture number, 1 to 49. */
  predicate PictureNumber(t: string) {
    AllDigits(t) && 1 <= DecimalValue(t) <= 49
  }

  /** `if not selected_cards`: both `None` and the empty list are refused. */
  function Outcome(selected: Option<seq<Card>>): Reply {
    if selected.None? || selected.value == [] then Unexpected else Reading(selected.value)
  }

  /** The answer to a text message. */
  function ManualReply(catalog: map<string, Card>, text: string): Reply {
    var tokens := DigitTokens(text);
    if tokens == [] then DontKnow
    else if |tokens| != 5 then NotFive
    else if exists i :: 0 <= i < 5 && !PictureNumber(tokens[i]) then OutOfRange
    else Outcome(Selected(catalog, tokens))
  }

  /** `manual_test`, up to the point where the formulas run. */
  method ManualTest(catalog: map<string, Card>, text: string) returns (reply: Reply)
    ensures reply == ManualReply(catalog, text)
  {
    var tokens := DigitTokens(text);
    if tokens == [] {
      return DontKnow;
    }
    if |tokens| != 5 {
      return NotFive;
    }
    for i := 0 to |tokens|
      invariant forall j :: 0 <= j < i ==> PictureNumber(tokens[j])
    {
      if !PictureNumber(tokens[i]) {
        return OutOfRange;
      }
    }
    var selected := SelectCard(catalog, tokens);
    if selected.None? || selected.value == [] {
      return Unexpected;
    }
    return Reading(selected.value);
  }

  /** Each answer to a text message and exactly when it is given. */
  lemma ManualReplyCases(catalog: map<string, Card>, text: string)
    ensures var tokens := DigitTokens(text); var reply := ManualReply(catalog, text);
      && (reply == DontKnow <==> DigitsOnly(text) == [])
      && (reply == NotFive <==> tokens != [] && |tokens| != 5)
      && (reply == OutOfRange <==> |tokens| == 5 && exists i :: 0 <= i < 5 && !PictureNumber(tokens[i]))
      && (reply == Unexpected <==>
            |tokens| == 5 && (forall i :: 0 <= i < 5 ==> PictureNumber(tokens[i]))
            && !NoRepeats(Resolve(catalog, tokens)))
      && (reply.Reading? <==>
            |tokens| == 5 && (forall i :: 0 <= i < 5 ==> PictureNumber(tokens[i]))
            && NoRepeats(Resolve(catalog, tokens)))
      && (reply.Reading? ==> reply.cards == Resolve(catalog, tokens) && |reply.cards| == 5)
  {
    NoTokensNoDigits(text);
  }

  /** Five distinct picture numbers typed with spaces between them, all in a loaded
      catalog, are read as the five records in the order typed. */
  lemma ManualReadsFiveNumbers(catalog: map<string, Card>, parts: seq<string>)
    requires Loaded(catalog)
    requires |parts| == 5 && NoRepeats(parts)
    requires forall i :: 0 <= i < 5 ==> 1 <= |parts[i]| <= 2 && PictureNumber(parts[i]) && parts[i] in catalog
    ensures ManualReply(catalog, Join(parts, " ")) == Reading(Resolve(catalog, parts))
  {
    DigitTokensOfSpaced(parts);
    SelectedDistinctKnown(catalog, parts);
  }

  /** `select_card` formats each web-app item with `f"{key}"`. */
  function WebKeys(items: seq<int>): seq<string> {
    seq(|items|, i requires 0 <= i < |items| => IntToString(items[i]))
  }

  /** The answer to the web app's list of picture numbers, as the handler checks it:
      any zero item first, then the range, then the selection. */
  function WebReply(catalog: map<string, Card>, items: seq<int>): Reply {
    if exists i :: 0 <= i < |items| && items[i] == 0 then Unexpected
    else if exists i :: 0 <= i < |items| && !(1 <= items[i] <= 49) then OutOfRange
    else Outcome(Selected(catalog, WebKeys(items)))
  }

  /** `web_app`, after the subscription check and up to the point where the formulas run. */
  method WebApp(catalog: map<string, Card>, items: seq<int>) returns (reply: Reply)
    ensures reply == WebReply(catalog, items)
  {
    for i := 0 to |items|
      invariant forall j :: 0 <= j < i ==> items[j] != 0
    {
      if items[i] == 0 {
        return Unexpected;
      }
    }
    for i := 0 to |items|
      invariant forall j :: 0 <= j < i ==> 1 <= items[j] <= 49
    {
      if items[i] > 49 || items[i] < 1 {
        return OutOfRange;
      }
    }
    var selected := SelectCard(catalog, WebKeys(items));
    if selected.None? || selected.value == [] {
      return Unexpected;
    }
    return Reading(selected.value);
  }

  /** A web-app reading holds one distinct record per item, each item a picture
      number, but nothing fixes how many items there are. */
  lemma WebReadingChecked(catalog: map<string, Card>, items: seq<int>)
    requires WebReply(catalog, items).Reading?
    ensures var cards := WebReply(catalog, items).cards;
      && |cards| == |items| >= 1
      && (forall i :: 0 <= i < |items| ==> 1 <= items[i] <= 49)
      && NoRepeats(cards)
      && cards == Resolve(catalog, WebKeys(items))
  {
  }

  /** Four distinct pictures from the web app are accepted as a reading of four
      cards, which `formula3` then answers with `None`. */
  lemma WebAcceptsFourPictures(catalog: map<string, Card>)
    requires Loaded(catalog)
    requires "1" in catalog && "2" in catalog && "3" in catalog && "4" in catalog
    ensures WebReply(catalog, [1, 2, 3, 4]).Reading?
    ensures |WebReply(catalog, [1, 2, 3, 4]).cards| == 4
  {
    var items := [1, 2, 3, 4];
    var keys := WebKeys(items);
    assert keys == ["1", "2", "3", "4"];
    assert NoRepeats(keys);
    SelectedDistinctKnown(catalog, keys);
  }

  /** The web-app answer with the count check that `manual_test` makes. */
  function WebReplyChecked(catalog: map<string, Card>, items: seq<int>): Reply {
    if exists i :: 0 <= i < |items| && items[i] == 0 then Unexpected
    else if |items| != 5 then NotFive
    else if exists i :: 0 <= i < |items| && !(1 <= items[i] <= 49) then OutOfRange
    else Outcome(Selected(catalog, WebKeys(items)))
  }

  /** With the count check a reading always has five cards, and for five items the
      answer is the one the handler gives. */
  lemma WebCheckedReadsFive(catalog: map<string, Card>, items: seq<int>)
    ensures WebReplyChecked(catalog, items).Reading? ==> |WebReplyChecked(catalog, items).cards| == 5
    ensures |items| == 5 ==> WebReplyChecked(catalog, items) == WebReply(catalog, items)
    ensures |items| != 5 ==> !WebReplyChecked(catalog, items).Reading?
  {
  }

  // ---------------------------------------------------------------------------
  // get_status

  /** `get_status(status, viewed)` */
  function GetStatus(status: bool, viewed: bool): (s: string)
    ensures s == "Выполнено" <==> status
    ensures s == "Отклонена" <==> !status && viewed
    ensures s == "В обработке" <==> !status && !viewed
  {
    StatusTextsDiffer();
    if status then "Выполнено" else if viewed then "Отклонена" else "В обработке"
  }

  lemma StatusTextsDiffer()
    ensures "Выполнено" != "Отклонена" && "Выполнено" != "В обработке" && "Отклонена" != "В обработке"
  {
    assert "Выполнено"[0] != "Отклонена"[0];
    assert "Выполнено"[1] != "В обработке"[1];
    assert "Отклонена"[0] != "В обработке"[0];
  }

  /** A request is shown as in progress exactly when it is on the admin list. */
  lemma StatusPending(r: Api.Req)
    ensures GetStatus(r.status, r.viewed) == "В обработке" <==> Api.IsPending(r)
  {
  }

  /** Two requests show the same status exactly when both are approved, or neither
      is and both have or both have not been looked at. */
  lemma StatusDistinguishes(s1: bool, v1: bool, s2: bool, v2: bool)
    ensures GetStatus(s1, v1) == GetStatus(s2, v2) <==> s1 == s2 && (s1 || v1 == v2)
  {
    assert "Выполнено"[0] != "Отклонена"[0] && "Выполнено"[1] != "В обработке"[1];
    assert "Отклонена"[0] != "В обработке"[0];
  }

  // ---------------------------------------------------------------------------
  // Paging

  /** `max(0, count - (page + 1) * limit)`: how many records come after the page. */
  function Remaining(count: int, page: int, limit: int): (r: int)
    ensures r >= 0
    ensures r == 0 <==> count <= (page + 1) * limit
    ensures r > 0 ==> (page + 1) * limit + r == count
  {
    if count - (page + 1) * limit > 0 then count - (page + 1) * limit else 0
  }

  /** Turning the page takes one more page of records off what remains. */
  lemma RemainingNextPage(count: int, page: int, limit: int)
    requires limit >= 0
    ensures Remaining(count, page + 1, limit) == Api.Max(0, Remaining(count, page, limit) - limit)
  {
    assert (page + 2) * limit == (page + 1) * limit + limit;
  }

  /** The buttons the bot attaches to its messages. */
  datatype Button =
    | Back(offset: int, target: int)     // "Назад ({offset})", requests_next_{target}
    | Next(remaining: int, target: int)  // "Далее ({remaining})", requests_next_{target}
    | More(remaining: int, target: int)  // "Показать еще ({remaining})", admin_requests_new_{target}
    | Refresh                            // "Обновить", admin_requests
    | ToAdmin                            // "Назад", admin

  /** The row under a page of the user's own requests (`requests` for page 0,
      `requests_next` for the others). */
  function RequestButtons(count: int, page: int, limit: int): (bs: seq<Button>)
    ensures |bs| <= 2
    ensures Back(limit * page, page - 1) in bs <==> limit * page != 0
    ensures Next(Remaining(count, page, limit), page + 1) in bs <==> Remaining(count, page, limit) != 0
    ensures forall b :: b in bs ==> b == Back(limit * page, page - 1) || b == Next(Remaining(count, page, limit), page + 1)
  {
    var offset := limit * page;
    var rest := Remaining(count, page, limit);
    (if offset != 0 then [Back(offset, page - 1)] else []) + (if rest != 0 then [Next(rest, page + 1)] else [])
  }

  /** `requests_next`: nothing at all is sent for a negative page. */
  function RequestsNextKeyboard(count: int, page: int, limit: int): (k: Option<seq<Button>>)
    ensures k.None? <==> page < 0
    ensures k.Some? ==> k.value == RequestButtons(count, page, limit)
  {
    if page < 0 then None else Some(RequestButtons(count, page, limit))
  }

  /** "Назад" is there exactly on the pages after the first, "Далее" exactly when
      records remain, "Назад" comes first, and there is nothing else. */
  lemma RequestButtonsShape(count: int, page: int, limit: int)
    requires limit > 0 && page >= 0
    ensures var bs := RequestButtons(count, page, limit);
      && (Back(limit * page, page - 1) in bs <==> page > 0)
      && (Next(Remaining(count, page, limit), page + 1) in bs <==> Remaining(count, page, limit) > 0)
      && (forall b :: b in bs ==> b == Back(limit * page, page - 1) || b == Next(Remaining(count, page, limit), page + 1))
      && (|bs| == 2 ==> bs[0].Back? && bs[1].Next?)
  {
    assert page > 0 ==> limit * page > 0;
  }

  /** "Далее" leads to a page whose "Назад" leads back, offset by one page. */
  lemma NextThenBack(count: int, page: int, limit: int)
    requires limit > 0 && page >= 0
    requires Remaining(count, page, limit) > 0
    ensures RequestsNextKeyboard(count, page + 1, limit).Some?
    ensures Back(limit * (page + 1), page) in RequestsNextKeyboard(count, page + 1, limit).value
  {
    RequestButtonsShape(count, page + 1, limit);
  }

  /** The keyboard under the admin's list of new requests: "Показать еще" when records
      remain, then "Обновить", and a row "Назад" to the admin menu. */
  function AdminKeyboard(count: int, page: int, limit: int): (rows: seq<seq<Button>>)
    ensures |rows| == 2 && rows[1] == [ToAdmin] && Refresh in rows[0]
  {
    var other := Remaining(count, page, limit);
    [(if other != 0 then [More(other, page + 1)] else []) + [Refresh], [ToAdmin]]
  }

  lemma AdminKeyboardShape(count: int, page: int, limit: int)
    ensures var rows := AdminKeyboard(count, page, limit); var other := Remaining(count, page, limit);
      && |rows| == 2 && rows[1] == [ToAdmin]
      && rows[0][|rows[0]| - 1] == Refresh
      && (More(other, page + 1) in rows[0] <==> other > 0)
      && |rows[0]| == (if other > 0 then 2 else 1)
  {
  }

  /** `admin_requests_new_` as written: it builds the buttons but never adds a row,
      so its message carries an empty keyboard. */
  function AdminNextKeyboardAsWritten(count: int, page: int, limit: int): (rows: seq<seq<Button>>)
    ensures forall row, b :: row in rows ==> b !in row
  {
    []
  }

  /** With 25 new requests and ten to a page, the second page leaves five to show, but
      its keyboard offers neither "Показать еще" nor "Обновить". */
  lemma AdminNextKeyboardLosesButtons()
    ensures Remaining(25, 1, 10) == 5
    ensures More(5, 2) in AdminKeyboard(25, 1, 10)[0]
    ensures forall row :: row in AdminNextKeyboardAsWritten(25, 1, 10) ==> More(5, 2) !in row && Refresh !in row
  {
  }

  /** The keyboard of every later page, as the first page has it. */
  function AdminNextKeyboard(count: int, page: int, limit: int): seq<seq<Button>> {
    AdminKeyboard(count, page, limit)
  }

  /** Every later page offers "Показать еще" exactly while records remain, and
      following it to the last page ends the chain (ten to a page in the example above:
      the third of 25 requests' pages has no such button). */
  lemma AdminNextKeyboardPages(count: int, page: int, limit: int)
    requires limit > 0
    ensures var other := Remaining(count, page, limit);
      More(other, page + 1) in AdminNextKeyboard(count, page, limit)[0] <==> other > 0
    ensures Refresh in AdminNextKeyboard(count, page, limit)[0]
    ensures AdminNextKeyboard(count, page, limit)[1] == [ToAdmin]
    ensures Remaining(count, page, limit) <= limit ==> Remaining(count, page + 1, limit) == 0
  {
    AdminKeyboardShape(count, page, limit);
    RemainingNextPage(count, page, limit);
  }

  // ---------------------------------------------------------------------------
  // Tariff buttons

  function Min(a: int, b: int): int {
    if a <= b then a else b
  }

  /** All rows, one after another. */
  function Flatten<T>(rows: seq<seq<T>>): seq<T> {
    if rows == [] then [] else Flatten(rows[..|rows| - 1]) + rows[|rows| - 1]
  }

  /** `for i in range(len(buttons) // 2 + 1): keyboard.row(*buttons[i * 2:(i + 1) * 2])` */
  method TariffRows<T>(buttons: seq<T>) returns (rows: seq<seq<T>>)
    ensures |rows| == |buttons| / 2 + 1
    ensures Flatten(rows) == buttons
    ensures forall i :: 0 <= i < |rows| - 1 ==> |rows[i]| == 2
    ensures |rows[|rows| - 1]| <= 1
    ensures rows[|rows| - 1] == [] <==> |buttons| % 2 == 0
  {
    var n := |buttons|;
    rows := [];
    for i := 0 to n / 2 + 1
      invariant |rows| == i
      invariant forall j :: 0 <= j < i ==> rows[j] == buttons[2 * j .. Min(2 * j + 2, n)]
      invariant Flatten(rows) == buttons[..Min(2 * i, n)]
    {
      var lo, hi := 2 * i, Min(2 * i + 2, n);
      assert buttons[..Min(2 * i, n)] + buttons[lo..hi] == buttons[..hi];
      assert (rows + [buttons[lo..hi]])[..i] == rows;
      rows := rows + [buttons[lo..hi]];
    }
    assert buttons[..n] == buttons;
  }
}

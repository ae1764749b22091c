/** The card catalog of the bot (MirotorBot/main.py, lines 33-49): every row of
    `cards.csv` after the header becomes one card record, keyed by the text of its
    first column, with its bone codes and its need tags extracted by regular
    expressions from the space-stripped second and seventh columns. */
module Catalog {
  import opened Text
  import opened Wrappers

  /** One card record. `Unknown` is the empty dict `{}` that `cards.get(key, {})`
      hands out for an id that is not in the catalog. */
  datatype Card =
    | Unknown
    | Card(id: string, bones: seq<string>, count: string, power: string, name: string,
           desc: string, eob: seq<string>, recRu: string, recEn: string)

  /** `card.get('bones', [])` */
  function Bones(c: Card): seq<string> {
    if c.Unknown? then [] else c.bones
  }

  /** `card.get('EOB', [])` */
  function Eob(c: Card): seq<string> {
    if c.Unknown? then [] else c.eob
  }

  /** `card.get('desc', '')` */
  function Desc(c: Card): string {
    if c.Unknown? then "" else c.desc
  }

  /** `card.get('REC_RU', '')` */
  function RecRu(c: Card): string {
    if c.Unknown? then "" else c.recRu
  }

  // ---------------------------------------------------------------------------
  // re.findall(r'([CTLS]\d{1,2})', ...)

  predicate IsBoneLetter(c: char) {
    c == 'C' || c == 'T' || c == 'L' || c == 'S'
  }

  /** A code the bone pattern matches: a category letter and one or two digits. */
  predicate IsBoneCode(s: string) {
    (|s| == 2 || |s| == 3) && IsBoneLetter(s[0]) && AllDigits(s[1..])
  }

  /** Left-to-right, non-overlapping, greedy matches of `[CTLS]\d{1,2}`. */
  function FindBones(s: string): (r: seq<string>)
    ensures forall i :: 0 <= i < |r| ==> IsBoneCode(r[i])
    decreases |s|
  {
    if |s| < 2 then []
    else if IsBoneLetter(s[0]) && IsDigit(s[1]) then
      if |s| >= 3 && IsDigit(s[2]) then [s[..3]] + FindBones(s[3..])
      else [s[..2]] + FindBones(s[2..])
    else FindBones(s[1..])
  }

  // ---------------------------------------------------------------------------
  // re.findall(r'([А-Я]{2})', ...)

  /** The character class `[А-Я]`: U+0410 to U+042F (it leaves out `Ё`). */
  predicate IsCyrillicUpper(c: char) {
    'А' <= c <= 'Я'
  }

  predicate IsTagCode(s: string) {
    |s| == 2 && IsCyrillicUpper(s[0]) && IsCyrillicUpper(s[1])
  }

  /** Left-to-right, non-overlapping matches of `[А-Я]{2}`. */
  function FindTags(s: string): (r: seq<string>)
    ensures forall i :: 0 <= i < |r| ==> IsTagCode(r[i])
    decreases |s|
  {
    if |s| < 2 then []
    else if IsCyrillicUpper(s[0]) && IsCyrillicUpper(s[1]) then [s[..2]] + FindTags(s[2..])
    else FindTags(s[1..])
  }

  /** The concatenation of a list of strings. */
  function Concat(parts: seq<string>): string {
    if parts == [] then "" else parts[0] + Concat(parts[1..])
  }

  /** The first character of a joined text is that of its first part. */
  lemma JoinHead(parts: seq<string>, sep: string)
    requires |parts| >= 1 && parts[0] != []
    ensures Join(parts, sep) != [] && Join(parts, sep)[0] == parts[0][0]
  {
    if |parts| > 1 {
      assert Join(parts, sep) == parts[0] + (sep + Join(parts[1..], sep));
    }
  }

  /** A bone code followed by anything but a digit is one match. */
  lemma FindBonesHead(c: string, u: string)
    requires IsBoneCode(c)
    requires u == [] || !IsDigit(u[0])
    ensures FindBones(c + u) == [c] + FindBones(u)
  {
    var s := c + u;
    assert IsDigit(s[1]) by { assert s[1] == c[1..][0]; }
    if |c| == 3 {
      assert IsDigit(s[2]) by { assert s[2] == c[1..][1]; }
      assert s[..3] == c && s[3..] == u;
    } else {
      assert s[..2] == c && s[2..] == u;
    }
  }

  /** Text without a digit in front of a bone code (or of nothing) holds no match. */
  lemma {:induction false} FindBonesSkip(sep: string, t: string)
    requires forall i :: 0 <= i < |sep| ==> !IsDigit(sep[i])
    requires t == [] || IsBoneLetter(t[0])
    ensures FindBones(sep + t) == FindBones(t)
    decreases |sep|
  {
    if sep != [] {
      var s := sep + t;
      assert s[1..] == sep[1..] + t;
      FindBonesSkip(sep[1..], t);
      if |s| >= 2 {
        assert s[0] == sep[0];
        assert !IsDigit(s[1]) by {
          if |sep| >= 2 { assert s[1] == sep[1]; } else { assert s[1] == t[0]; }
        }
        assert FindBones(s) == FindBones(s[1..]);
      } else {
        assert t == [];
      }
    } else {
      assert sep + t == t;
    }
  }

  /** A cell listing bone codes, separated by any text without a digit (", ",
      "/", nothing at all), is read back as exactly those codes. */
  lemma {:induction false} FindBonesJoin(codes: seq<string>, sep: string)
    requires forall i :: 0 <= i < |codes| ==> IsBoneCode(codes[i])
    requires forall i :: 0 <= i < |sep| ==> !IsDigit(sep[i])
    ensures FindBones(Join(codes, sep)) == codes
  {
    if |codes| == 1 {
      FindBonesHead(codes[0], "");
      assert codes[0] + "" == codes[0];
    } else if |codes| > 1 {
      var rest := Join(codes[1..], sep);
      FindBonesJoin(codes[1..], sep);
      JoinHead(codes[1..], sep);
      FindBonesSkip(sep, rest);
      var u := sep + rest;
      assert !IsDigit(u[0]) by {
        if sep != [] { assert u[0] == sep[0]; } else { assert u[0] == rest[0]; }
      }
      FindBonesHead(codes[0], u);
      assert Join(codes, sep) == codes[0] + u;
    }
  }

  /** A tag followed by anything is one match. */
  lemma FindTagsHead(tag: string, u: string)
    requires IsTagCode(tag)
    ensures FindTags(tag + u) == [tag] + FindTags(u)
  {
    var s := tag + u;
    assert s[..2] == tag && s[2..] == u;
  }

  /** Text without a character of `[А-Я]` holds no tag and splits none. */
  lemma {:induction false} FindTagsSkip(sep: string, t: string)
    requires forall i :: 0 <= i < |sep| ==> !IsCyrillicUpper(sep[i])
    ensures FindTags(sep + t) == FindTags(t)
    decreases |sep|
  {
    if sep != [] {
      var s := sep + t;
      assert s[1..] == sep[1..] + t;
      FindTagsSkip(sep[1..], t);
      if |s| >= 2 {
        assert s[0] == sep[0];
        assert FindTags(s) == FindTags(s[1..]);
      } else {
        assert t == [];
      }
    } else {
      assert sep + t == t;
    }
  }

  /** A cell listing tags, separated by any text without a character of `[А-Я]`
      (", ", "/", nothing at all), is read back as exactly those tags. */
  lemma {:induction false} FindTagsJoin(tags: seq<string>, sep: string)
    requires forall i :: 0 <= i < |tags| ==> IsTagCode(tags[i])
    requires forall i :: 0 <= i < |sep| ==> !IsCyrillicUpper(sep[i])
    ensures FindTags(Join(tags, sep)) == tags
  {
    if |tags| == 1 {
      FindTagsHead(tags[0], "");
      assert tags[0] + "" == tags[0];
    } else if |tags| > 1 {
      var rest := Join(tags[1..], sep);
      FindTagsJoin(tags[1..], sep);
      FindTagsSkip(sep, rest);
      FindTagsHead(tags[0], sep + rest);
      assert Join(tags, sep) == tags[0] + (sep + rest);
    }
  }

  // ---------------------------------------------------------------------------
  // Loading the catalog

  /** The dict literal built from one data row; columns 0 to 6 must exist,
      `row[-2]` and `row[-1]` are the two recommendation columns. */
  function ParseRow(row: seq<string>): (c: Card)
    requires |row| >= 7
    ensures c.Card? && c.id == row[0]
    ensures forall i :: 0 <= i < |c.bones| ==> IsBoneCode(c.bones[i])
    ensures forall i :: 0 <= i < |c.eob| ==> IsTagCode(c.eob[i])
  {
    Card(row[0], FindBones(RemoveChar(row[1], ' ')), row[2], row[3], row[4], row[5],
         FindTags(RemoveChar(row[6], ' ')), row[|row| - 2], row[|row| - 1])
  }

  /** Why loading stops: the row at this index has fewer than seven columns
      (the `IndexError` that aborts the bot's start-up). */
  datatype LoadError = ShortRow(index: nat)

  /** The catalog after the first `n` rows of the file have been read. */
  function LoadedPrefix(rows: seq<seq<string>>, n: nat): Result<map<string, Card>, LoadError>
    requires n <= |rows|
  {
    if n == 0 then Success(map[])
    else
      var prev := LoadedPrefix(rows, n - 1);
      if prev.Failure? || n - 1 == 0 then prev
      else if |rows[n - 1]| < 7 then Failure(ShortRow(n - 1))
      else Success(prev.value[rows[n - 1][0] := ParseRow(rows[n - 1])])
  }

  /** The `cards` dict filled row by row at start-up. */
  method LoadCatalog(rows: seq<seq<string>>) returns (r: Result<map<string, Card>, LoadError>)
    ensures r == LoadedPrefix(rows, |rows|)
  {
    var cards: map<string, Card> := map[];
    for i := 0 to |rows|
      invariant LoadedPrefix(rows, i) == Success(cards)
    {
      if i == 0 {
        continue;
      }
      var row := rows[i];
      if |row| < 7 {
        FailureSticks(rows, i + 1, |rows|);
        return Failure(ShortRow(i));
      }
      cards := cards[row[0] := ParseRow(row)];
    }
    return Success(cards);
  }

  /** Once a short row has stopped loading, the rows after it change nothing. */
  lemma {:induction false} FailureSticks(rows: seq<seq<string>>, m: nat, n: nat)
    requires m <= n <= |rows|
    requires LoadedPrefix(rows, m).Failure?
    ensures LoadedPrefix(rows, n) == LoadedPrefix(rows, m)
  {
    if m < n {
      FailureSticks(rows, m, n - 1);
    }
  }

  /** A record as loading leaves it: a real card under its own id, whose bone codes
      and tags are what the two patterns match. */
  predicate WellFormed(key: string, c: Card) {
    && c.Card?
    && c.id == key
    && (forall i :: 0 <= i < |c.bones| ==> IsBoneCode(c.bones[i]))
    && (forall i :: 0 <= i < |c.eob| ==> IsTagCode(c.eob[i]))
  }

  /** Loading fails exactly when some data row (not the header) is short,
      and it reports the first such row. */
  lemma {:induction false} LoadFailsOnShortRow(rows: seq<seq<string>>, n: nat)
    requires n <= |rows|
    ensures LoadedPrefix(rows, n).Failure? <==> exists j :: 1 <= j < n && |rows[j]| < 7
    ensures LoadedPrefix(rows, n).Failure? ==>
      var j := LoadedPrefix(rows, n).error.index;
      1 <= j < n && |rows[j]| < 7 && forall k :: 1 <= k < j ==> |rows[k]| >= 7
  {
    if n > 0 {
      LoadFailsOnShortRow(rows, n - 1);
    }
  }

  /** The keys of the loaded catalog are exactly the first columns of the data rows,
      and every record is well formed under its key. */
  lemma {:induction false} LoadedKeys(rows: seq<seq<string>>, n: nat)
    requires n <= |rows|
    requires LoadedPrefix(rows, n).Success?
    ensures forall k :: k in LoadedPrefix(rows, n).value <==>
      exists j :: 1 <= j < n && |rows[j]| > 0 && rows[j][0] == k
    ensures forall k :: k in LoadedPrefix(rows, n).value ==>
      WellFormed(k, LoadedPrefix(rows, n).value[k])
  {
    if n > 1 {
      LoadedKeys(rows, n - 1);
    }
  }

  /** A later row with the same first column replaces an earlier one: the record
      under a key comes from the last row carrying that key. */
  lemma {:induction false} LoadedFromLastRow(rows: seq<seq<string>>, n: nat, j: nat)
    requires n <= |rows|
    requires LoadedPrefix(rows, n).Success?
    requires 1 <= j < n && |rows[j]| >= 7
    requires forall k :: j < k < n && |rows[k]| > 0 ==> rows[k][0] != rows[j][0]
    ensures rows[j][0] in LoadedPrefix(rows, n).value
    ensures LoadedPrefix(rows, n).value[rows[j][0]] == ParseRow(rows[j])
  {
    LoadFailsOnShortRow(rows, n);
    if j < n - 1 {
      LoadedFromLastRow(rows, n - 1, j);
    }
  }
}

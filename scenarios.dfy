/**
 * Whole updates on concrete requests: what the reconciler writes for a
 * first list-append and a second one, for a run of increments, and for an
 * overwrite of one key among two.
 */
module Scenarios {
  import opened Wrappers
  import opened JavaInt
  import opened JavaText
  import opened Profiles
  import opened Merge
  import opened ProfileService

  const Alice: UserId := UserId("existing-user-id")

  /** A store holding one profile for `Alice` with the given properties. */
  function StoreWith(properties: PropertyMap): (s: Store)
    ensures Alice in s && s[Alice].properties == properties
  {
    map[Alice := UserProfile(Alice, 0, properties)]
  }

  /**
   * The first list-append for a new user stores `["x"]` as raw text; the
   * second parses both sides. The quote characters are not list syntax to
   * the parser, so they stay in the elements.
   */
  lemma CollectTwice()
    ensures Reconcile(map[], Alice, Some(Alice), map["a" := Str("[\"x\"]")], Some("collect"))
            == Success(map["a" := Str("[\"x\"]")])
    ensures Reconcile(StoreWith(map["a" := Str("[\"x\"]")]), Alice, Some(Alice), map["a" := Str("[\"y\"]")], Some("collect"))
            == Success(map["a" := StrList(["\"x\"", "\"y\""])])
  {
    NewProfileStoresIncoming(map[], Alice, map["a" := Str("[\"x\"]")], Some("collect"), 0);
    CollectQuoted(map["a" := Str("[\"x\"]")], map["a" := Str("[\"y\"]")], 'x', 'y');
  }

  /** List-append of one quoted letter onto another, under the single key `a`. */
  lemma CollectQuoted(current: PropertyMap, updates: PropertyMap, c: char, d: char)
    requires current == map["a" := Str(['[', '"', c, '"', ']'])]
    requires updates == map["a" := Str(['[', '"', d, '"', ']'])]
    requires !IsArrayNoise(c) && c != ',' && !IsArrayNoise(d) && d != ','
    ensures CollectMerge(current, updates) == Success(map["a" := StrList([['"', c, '"'], ['"', d, '"']])])
  {
    QuotedItem(c);
    QuotedItem(d);
    CollectStores(current, updates, "a");
    MergeOnFrame(current, updates, CollectRule);
    var written := CollectMerge(current, updates).value;
    assert written.Keys == {"a"};
    assert written == map["a" := StrList([['"', c, '"']] + [['"', d, '"']])];
    assert [['"', c, '"']] + [['"', d, '"']] == [['"', c, '"'], ['"', d, '"']];
  }

  /** A bracketed, quoted character parses to the quoted character. */
  lemma QuotedItem(c: char)
    requires !IsArrayNoise(c) && c != ','
    ensures ContentList(Str(['[', '"', c, '"', ']'])) == [['"', c, '"']]
  {
    var raw := ['[', '"', c, '"', ']'];
    assert raw[1..] == ['"', c, '"', ']'] && raw[2..] == [c, '"', ']'];
    assert raw[3..] == ['"', ']'] && raw[4..] == [']'] && raw[5..] == [];
    assert StripArrayNoise(raw[4..]) == [];
    assert StripArrayNoise(raw[3..]) == ['"'];
    assert StripArrayNoise(raw[2..]) == [c, '"'];
    assert StripArrayNoise(raw[1..]) == ['"', c, '"'];
    var stripped := StripArrayNoise(raw);
    assert stripped == ['"', c, '"'];
    assert ',' !in stripped;
  }

  /**
   * Increments on a profile that lacks the key: `5` stores 5, another `5`
   * makes it 10, and `x` is rejected.
   */
  lemma IncrementRun()
    ensures Reconcile(StoreWith(map[]), Alice, Some(Alice), map["n" := Str("5")], Some("increment"))
            == Success(map["n" := Number(5)])
    ensures Reconcile(StoreWith(map["n" := Number(5)]), Alice, Some(Alice), map["n" := Str("5")], Some("increment"))
            == Success(map["n" := Number(10)])
    ensures Reconcile(StoreWith(map["n" := Number(5)]), Alice, Some(Alice), map["n" := Str("x")], Some("increment"))
            == Failure(InvalidProperty)
  {
    var five := map["n" := Str("5")];
    assert ParseInt("5") == Some(5);
    assert ParseInt("x") == None;
    IncrementOnce(map[], five, None, 5);
    ParseRenderNumber(5);
    IncrementOnce(map["n" := Number(5)], five, Some(5), 10);
    IncrementFailsIff(map["n" := Number(5)], map["n" := Str("x")]);
  }

  /** An increment of the single key `n` by the numeral "5". */
  lemma IncrementOnce(current: PropertyMap, updates: PropertyMap, before: Option<Int32>, after: Int32)
    requires updates == map["n" := Str("5")]
    requires current.Keys <= {"n"}
    requires before.None? ==> current == map[] && after == 5
    requires before.Some? ==> "n" in current && ParseInt(Render(current["n"])) == before
                              && after == AddInt(before.value, 5)
    ensures IncrementMerge(current, updates) == Success(map["n" := Number(after)])
  {
    assert ParseInt("5") == Some(5);
    MergeOnFrame(current, updates, IncrementRule);
    assert IncrementRule(current, "n", Str("5")) == Some(Number(after));
    var written := IncrementMerge(current, updates).value;
    assert written.Keys == {"n"};
    assert written == map["n" := Number(after)];
  }

  /** Overwriting `b` in `{a: 1, b: 2}` with 9 keeps `a`. */
  lemma ReplaceOne()
    ensures Reconcile(StoreWith(map["a" := Number(1), "b" := Number(2)]), Alice, Some(Alice),
                      map["b" := Number(9)], Some("replace"))
            == Success(map["a" := Number(1), "b" := Number(9)])
  {
    var current := map["a" := Number(1), "b" := Number(2)];
    CollectReplaceSucceed(current, map["b" := Number(9)]);
    assert current + map["b" := Number(9)] == map["a" := Number(1), "b" := Number(9)];
  }
}

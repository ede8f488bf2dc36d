/**
 * The three merge rules of the reconciler. Each is specified by a function
 * over the stored property map and the incoming one, and carried out by a
 * method that walks the incoming keys and puts into a copy of the stored map.
 */
module Merge {
  import opened Wrappers
  import opened JavaInt
  import opened JavaText
  import opened Profiles

  /** A list element the list parser gives back unchanged: no `[`, `]`, `\s` or `,`. */
  predicate CleanItem(x: string) {
    forall c | c in x :: !IsArrayNoise(c) && c != ','
  }

  /**
   * `getContentListFromProperty`: the rendered value with every `[`, `]`
   * and `\s` deleted, split on `,`.
   */
  function ContentList(v: PropertyValue): seq<string> {
    JavaSplit(StripArrayNoise(Render(v)), ',')
  }

  /** No element the list parser yields holds a `[`, `]`, `\s` or `,`. */
  lemma ContentListClean(v: PropertyValue)
    ensures forall i | 0 <= i < |ContentList(v)| :: CleanItem(ContentList(v)[i])
  {
    var stripped := StripArrayNoise(Render(v));
    StripRemovesNoise(Render(v));
    JavaSplitPieces(stripped, ',');
  }

  /** A stored list of clean items, the last one not empty, parses back to itself. */
  lemma ContentListOfList(items: seq<string>)
    requires |items| > 0 && (|items| == 1 || items[|items| - 1] != "")
    requires forall i | 0 <= i < |items| :: CleanItem(items[i])
    ensures ContentList(StrList(items)) == items
  {
    var joined := Join(items, ", ");
    StripConcat("[" + joined, "]");
    StripConcat("[", joined);
    assert StripArrayNoise("[") == [] && StripArrayNoise("]") == [];
    StripJoin(items);
    assert StripArrayNoise(Render(StrList(items))) == Join(items, ",");
    if |items| == 1 {
      assert Join(items, ",") == items[0];
    } else {
      JavaSplitJoin(items, ',');
    }
  }

  /** The parser does not give back every list: an empty list reads back as one empty element. */
  lemma ContentListOfEmptyList()
    ensures ContentList(StrList([])) == [""]
  {
    assert Render(StrList([])) == "[]";
    assert StripArrayNoise("]") == [];
    assert StripArrayNoise("[]") == [];
  }

  /** A list whose last element is empty does not survive the round trip: the split drops that element. */
  lemma ContentListDropsTrailingEmpty()
    ensures ContentList(StrList(["a", ""])) == ["a"]
  {
    assert Join(["a", ""], ", ") == "a, ";
    var rendered := "[a, ]";
    assert Render(StrList(["a", ""])) == rendered;
    assert rendered[1..] == "a, ]" && rendered[2..] == ", ]" && rendered[3..] == " ]" && rendered[4..] == "]";
    assert StripArrayNoise(rendered[4..]) == [];
    assert StripArrayNoise(rendered[3..]) == [];
    assert StripArrayNoise(rendered[2..]) == ",";
    assert StripArrayNoise(rendered) == "a,";
    SplitExamples();
  }

  // ------------------------------------------------------ the shared loop

  /**
   * A merge rule for one key: given the stored map, the key and the incoming
   * value, what to put under the key, or `None` to abort the whole update.
   */
  type KeyRule = (PropertyMap, PropertyName, PropertyValue) -> Option<PropertyValue>

  /**
   * A copy of the stored map into which `rule`'s value has been put for each
   * incoming key in `done`; `InvalidProperty` when the rule aborts on one of
   * them. Every rule reads the stored map, never the partly merged copy: a
   * key is visited once, so the copy still holds the stored value there.
   */
  function MergeOn(current: PropertyMap, updates: PropertyMap, done: set<PropertyName>, rule: KeyRule): Result<PropertyMap, ServiceError>
    requires done <= updates.Keys
  {
    if forall k | k in done :: rule(current, k, updates[k]).Some? then
      Success(map k | k in current.Keys + done :: if k in done then rule(current, k, updates[k]).value else current[k])
    else Failure(InvalidProperty)
  }

  lemma MergeOnEmpty(current: PropertyMap, updates: PropertyMap, rule: KeyRule)
    ensures MergeOn(current, updates, {}, rule) == Success(current)
  {
    assert MergeOn(current, updates, {}, rule).value == current;
  }

  /** One more key: the copy still holds the stored value there, and the rule's value extends `done` or aborts. */
  lemma MergeOnStep(current: PropertyMap, updates: PropertyMap, done: set<PropertyName>, name: PropertyName,
                    merged: PropertyMap, rule: KeyRule)
    requires done <= updates.Keys && name in updates && name !in done
    requires MergeOn(current, updates, done, rule) == Success(merged)
    ensures name in merged <==> name in current
    ensures name in current ==> merged[name] == current[name]
    ensures rule(current, name, updates[name]).None? ==> MergeOn(current, updates, done + {name}, rule).Failure?
    ensures rule(current, name, updates[name]).Some? ==>
              MergeOn(current, updates, done + {name}, rule) == Success(merged[name := rule(current, name, updates[name]).value])
  {
    if rule(current, name, updates[name]).Some? {
      var next := MergeOn(current, updates, done + {name}, rule);
      assert next.Success?;
      assert next.value == merged[name := rule(current, name, updates[name]).value];
    }
  }

  /** Once the rule aborts on a key, every larger set of keys aborts too. */
  lemma MergeOnFailureGrows(current: PropertyMap, updates: PropertyMap, done: set<PropertyName>, more: set<PropertyName>, rule: KeyRule)
    requires done <= more <= updates.Keys
    requires MergeOn(current, updates, done, rule).Failure?
    ensures MergeOn(current, updates, more, rule).Failure?
  {
  }

  /**
   * A merge leaves every key it was not given alone, holds every key it was
   * given, and stores there the rule's value; it aborts exactly when the
   * rule aborts on some key.
   */
  lemma MergeOnFrame(current: PropertyMap, updates: PropertyMap, rule: KeyRule)
    ensures MergeOn(current, updates, updates.Keys, rule).Failure? <==>
              exists k | k in updates :: rule(current, k, updates[k]).None?
    ensures MergeOn(current, updates, updates.Keys, rule).Success? ==>
              var merged := MergeOn(current, updates, updates.Keys, rule).value;
              && merged.Keys == current.Keys + updates.Keys
              && (forall k | k in current && k !in updates :: merged[k] == current[k])
              && (forall k | k in updates :: rule(current, k, updates[k]) == Some(merged[k]))
  {
  }

  // ---------------------------------------------------------------- COLLECT

  /**
   * The list-append rule: on a stored key, the parsed stored value followed
   * by the parsed incoming one; on a new key, the incoming value as it is.
   */
  function CollectRule(current: PropertyMap, name: PropertyName, incoming: PropertyValue): Option<PropertyValue> {
    if name in current then Some(StrList(ContentList(current[name]) + ContentList(incoming)))
    else Some(incoming)
  }

  /** The map the list-append rule writes. */
  function CollectMerge(current: PropertyMap, updates: PropertyMap): Result<PropertyMap, ServiceError> {
    MergeOn(current, updates, updates.Keys, CollectRule)
  }

  /** The loop of `addValueToList`, over a copy of the stored map. */
  method CollectInto(current: PropertyMap, properties: PropertyMap) returns (merged: PropertyMap)
    ensures CollectMerge(current, properties) == Success(merged)
  {
    merged := current;
    var pending := properties.Keys;
    MergeOnEmpty(current, properties, CollectRule);
    assert properties.Keys - pending == {};
    while pending != {}
      invariant pending <= properties.Keys
      invariant MergeOn(current, properties, properties.Keys - pending, CollectRule) == Success(merged)
      decreases pending
    {
      var name :| name in pending;
      MergeOnStep(current, properties, properties.Keys - pending, name, merged, CollectRule);
      assert properties.Keys - (pending - {name}) == (properties.Keys - pending) + {name};
      var value := properties[name];
      if name in merged {
        var contentList := ContentList(merged[name]) + ContentList(value);
        merged := merged[name := StrList(contentList)];
      } else {
        merged := merged[name := value];
      }
      pending := pending - {name};
    }
    assert properties.Keys - pending == properties.Keys;
  }

  // -------------------------------------------------------------- INCREMENT

  /**
   * The increment rule: the incoming value read as an `int`, added with
   * wrap-around to the stored value read as an `int` when the key is
   * stored; `None` when either is not an `int` numeral.
   */
  function IncrementRule(current: PropertyMap, name: PropertyName, incoming: PropertyValue): Option<PropertyValue> {
    match ParseInt(Render(incoming))
    case None => None
    case Some(delta) =>
      if name in current then
        match ParseInt(Render(current[name]))
        case None => None
        case Some(base) => Some(Number(AddInt(base, delta)))
      else Some(Number(delta))
  }

  /** The map the increment rule writes, or `InvalidProperty` when some key cannot be incremented. */
  function IncrementMerge(current: PropertyMap, updates: PropertyMap): Result<PropertyMap, ServiceError> {
    MergeOn(current, updates, updates.Keys, IncrementRule)
  }

  /** The loop of `incrementValue`, over a copy of the stored map; it stops at the first bad key. */
  method IncrementInto(current: PropertyMap, properties: PropertyMap) returns (r: Result<PropertyMap, ServiceError>)
    ensures r == IncrementMerge(current, properties)
  {
    var merged := current;
    var pending := properties.Keys;
    MergeOnEmpty(current, properties, IncrementRule);
    assert properties.Keys - pending == {};
    while pending != {}
      invariant pending <= properties.Keys
      invariant MergeOn(current, properties, properties.Keys - pending, IncrementRule) == Success(merged)
      decreases pending
    {
      var name :| name in pending;
      ghost var done := properties.Keys - pending;
      MergeOnStep(current, properties, done, name, merged, IncrementRule);
      assert properties.Keys - (pending - {name}) == done + {name};
      var propertyValue := ParseInt(Render(properties[name]));
      if propertyValue.None? {
        MergeOnFailureGrows(current, properties, done + {name}, properties.Keys, IncrementRule);
        return Failure(InvalidProperty);
      }
      if name in merged {
        var currentPropertyValue := ParseInt(Render(merged[name]));
        if currentPropertyValue.None? {
          MergeOnFailureGrows(current, properties, done + {name}, properties.Keys, IncrementRule);
          return Failure(InvalidProperty);
        }
        var sum := AddInt(currentPropertyValue.value, propertyValue.value);
        assert IncrementRule(current, name, properties[name]) == Some(Number(sum));
        merged := merged[name := Number(sum)];
      } else {
        assert IncrementRule(current, name, properties[name]) == Some(Number(propertyValue.value));
        merged := merged[name := Number(propertyValue.value)];
      }
      pending := pending - {name};
    }
    assert properties.Keys - pending == properties.Keys;
    r := Success(merged);
  }

  // ---------------------------------------------------------------- REPLACE

  /** The overwrite rule: the incoming value, whatever is stored. */
  function ReplaceRule(current: PropertyMap, name: PropertyName, incoming: PropertyValue): Option<PropertyValue> {
    Some(incoming)
  }

  /** The map the overwrite rule writes. */
  function ReplaceMerge(current: PropertyMap, updates: PropertyMap): Result<PropertyMap, ServiceError> {
    MergeOn(current, updates, updates.Keys, ReplaceRule)
  }

  /** The loop of `replaceValue`, over a copy of the stored map. */
  method ReplaceInto(current: PropertyMap, properties: PropertyMap) returns (merged: PropertyMap)
    ensures ReplaceMerge(current, properties) == Success(merged)
  {
    merged := current;
    var pending := properties.Keys;
    MergeOnEmpty(current, properties, ReplaceRule);
    assert properties.Keys - pending == {};
    while pending != {}
      invariant pending <= properties.Keys
      invariant MergeOn(current, properties, properties.Keys - pending, ReplaceRule) == Success(merged)
      decreases pending
    {
      var newPropertyName :| newPropertyName in pending;
      MergeOnStep(current, properties, properties.Keys - pending, newPropertyName, merged, ReplaceRule);
      assert properties.Keys - (pending - {newPropertyName}) == (properties.Keys - pending) + {newPropertyName};
      merged := merged[newPropertyName := properties[newPropertyName]];
      pending := pending - {newPropertyName};
    }
    assert properties.Keys - pending == properties.Keys;
  }

  // ------------------------------------------------------------- properties

  /** List-append and overwrite never abort; overwrite is map override, the incoming entries winning. */
  lemma CollectReplaceSucceed(current: PropertyMap, updates: PropertyMap)
    ensures CollectMerge(current, updates).Success?
    ensures ReplaceMerge(current, updates) == Success(current + updates)
  {
    MergeOnFrame(current, updates, CollectRule);
    MergeOnFrame(current, updates, ReplaceRule);
    var replaced := ReplaceMerge(current, updates).value;
    assert forall k | k in updates :: replaced[k] == updates[k] by {
      forall k | k in updates ensures replaced[k] == updates[k] {
        assert ReplaceRule(current, k, updates[k]) == Some(replaced[k]);
      }
    }
    assert replaced == current + updates;
  }

  /**
   * List-append on a key not stored yet keeps the incoming value as it is;
   * on a stored key it stores the stored elements followed by the incoming
   * ones, order and duplicates kept.
   */
  lemma CollectStores(current: PropertyMap, updates: PropertyMap, k: PropertyName)
    requires k in updates
    ensures CollectMerge(current, updates).Success?
    ensures k !in current ==> CollectMerge(current, updates).value[k] == updates[k]
    ensures k in current ==>
              CollectMerge(current, updates).value[k] == StrList(ContentList(current[k]) + ContentList(updates[k]))
  {
    CollectReplaceSucceed(current, updates);
    MergeOnFrame(current, updates, CollectRule);
  }

  /**
   * Appending to a list the rule stored earlier extends that very list: the
   * earlier elements survive the render-and-parse round trip unchanged.
   */
  lemma CollectExtendsList(current: PropertyMap, updates: PropertyMap, k: PropertyName, items: seq<string>)
    requires k in current && k in updates && current[k] == StrList(items)
    requires |items| > 0 && (|items| == 1 || items[|items| - 1] != "")
    requires forall i | 0 <= i < |items| :: CleanItem(items[i])
    ensures CollectMerge(current, updates).Success?
    ensures CollectMerge(current, updates).value[k] == StrList(items + ContentList(updates[k]))
  {
    CollectStores(current, updates, k);
    ContentListOfList(items);
  }

  /**
   * Increment is all-or-nothing: it fails exactly when some incoming value,
   * or the stored value of an incoming key, is not an `int` numeral.
   */
  lemma IncrementFailsIff(current: PropertyMap, updates: PropertyMap)
    ensures IncrementMerge(current, updates).Failure? <==>
              exists k | k in updates ::
                ParseInt(Render(updates[k])).None? || (k in current && ParseInt(Render(current[k])).None?)
  {
    MergeOnFrame(current, updates, IncrementRule);
    if IncrementMerge(current, updates).Failure? {
      var k :| k in updates && IncrementRule(current, k, updates[k]).None?;
      assert ParseInt(Render(updates[k])).None? || (k in current && ParseInt(Render(current[k])).None?);
    } else {
      forall k | k in updates
        ensures ParseInt(Render(updates[k])).Some? && (k in current ==> ParseInt(Render(current[k])).Some?)
      {
        assert IncrementRule(current, k, updates[k]).Some?;
      }
    }
  }

  /**
   * A successful increment stores, under an incoming key, the parsed
   * incoming number, or its 32-bit wrapping sum with the parsed stored number.
   */
  lemma IncrementStores(current: PropertyMap, updates: PropertyMap, merged: PropertyMap, k: PropertyName)
    requires IncrementMerge(current, updates) == Success(merged) && k in updates
    ensures ParseInt(Render(updates[k])).Some?
    ensures k !in current ==> merged[k] == Number(ParseInt(Render(updates[k])).value)
    ensures k in current ==>
              && ParseInt(Render(current[k])).Some?
              && merged[k] == Number(AddInt(ParseInt(Render(current[k])).value, ParseInt(Render(updates[k])).value))
  {
    MergeOnFrame(current, updates, IncrementRule);
    assert IncrementRule(current, k, updates[k]) == Some(merged[k]);
  }

  /**
   * Two increments of one key add up: starting from a stored `x` (or from
   * nothing, `x` = 0), adding `a` and then `b` stores the wrapped `x + a + b`.
   */
  lemma IncrementTwice(current: PropertyMap, first: PropertyMap, second: PropertyMap, once: PropertyMap, twice: PropertyMap,
                       k: PropertyName, x: Int32, a: Int32, b: Int32)
    requires k in first && k in second
    requires ParseInt(Render(first[k])) == Some(a) && ParseInt(Render(second[k])) == Some(b)
    requires if k in current then ParseInt(Render(current[k])) == Some(x) else x == 0
    requires IncrementMerge(current, first) == Success(once)
    requires IncrementMerge(once, second) == Success(twice)
    ensures twice[k] == Number(Wrap(x + a + b))
  {
    IncrementStores(current, first, once, k);
    assert once[k] == Number(AddInt(x, a));
    IncrementOntoNumber(once, second, twice, k, AddInt(x, a), b);
    AddIntTwice(x, a, b);
  }

  /** Incrementing a key that holds a number the rule stored adds to that number. */
  lemma IncrementOntoNumber(current: PropertyMap, updates: PropertyMap, merged: PropertyMap, k: PropertyName, n: Int32, b: Int32)
    requires k in current && current[k] == Number(n)
    requires k in updates && ParseInt(Render(updates[k])) == Some(b)
    requires IncrementMerge(current, updates) == Success(merged)
    ensures merged[k] == Number(AddInt(n, b))
  {
    ParseRenderNumber(n);
    IncrementStores(current, updates, merged, k);
  }

  /** A number the increment rule stored reads back as the same number. */
  lemma ParseRenderNumber(n: Int32)
    ensures ParseInt(Render(Number(n))) == Some(n)
  {
    ParseIntToString(n);
  }

  /** Overwriting is idempotent: repeating an update changes nothing. */
  lemma ReplaceIdempotent(current: PropertyMap, updates: PropertyMap)
    ensures ReplaceMerge(current, updates).Success?
    ensures ReplaceMerge(ReplaceMerge(current, updates).value, updates) == ReplaceMerge(current, updates)
  {
    CollectReplaceSucceed(current, updates);
    CollectReplaceSucceed(current + updates, updates);
    assert current + updates + updates == current + updates;
  }
}

/**
 * The string operations the list-append rule relies on: the regex class
 * `[\[\]\s]`, `replaceAll` with it, `String.split` on a one-character
 * separator, and the `", "` joining that Java's `List.toString` performs.
 */
module JavaText {

  /** Java regex `\s`: space, tab, line feed, vertical tab, form feed, carriage return. */
  predicate IsRegexSpace(c: char) {
    c == ' ' || c == '\t' || c == '\n' || c == '\U{000B}' || c == '\U{000C}' || c == '\r'
  }

  /** The characters the list parser deletes: `[`, `]` and `\s`. */
  predicate IsArrayNoise(c: char) {
    c == '[' || c == ']' || IsRegexSpace(c)
  }

  /** `Pattern.compile("[\\[\\]\\s]").matcher(s).replaceAll("")`. */
  function StripArrayNoise(s: string): string {
    if s == [] then []
    else (if IsArrayNoise(s[0]) then [] else [s[0]]) + StripArrayNoise(s[1..])
  }

  /** Every piece between separators, including empty ones; the pieces `String.split` finds before it trims. */
  function SplitAll(s: string, sep: char): (r: seq<string>)
    ensures |r| > 0
  {
    if s == [] then [""]
    else
      var rest := SplitAll(s[1..], sep);
      if s[0] == sep then [""] + rest
      else [[s[0]] + rest[0]] + rest[1..]
  }

  /** The pieces joined with `sep` between consecutive ones. */
  function Join(pieces: seq<string>, sep: string): string {
    if |pieces| == 0 then ""
    else if |pieces| == 1 then pieces[0]
    else pieces[0] + sep + Join(pieces[1..], sep)
  }

  /** Drops the empty strings at the end, as `split` with limit 0 does. */
  function DropTrailingEmpty(pieces: seq<string>): (r: seq<string>)
    ensures r <= pieces
    ensures |r| > 0 ==> r[|r| - 1] != ""
    ensures forall i | |r| <= i < |pieces| :: pieces[i] == ""
  {
    if pieces != [] && pieces[|pieces| - 1] == "" then DropTrailingEmpty(pieces[..|pieces| - 1])
    else pieces
  }

  /**
   * `s.split(String.valueOf(sep))`: when `sep` does not occur the result is
   * `[s]` (so `""` gives `[""]`); otherwise every piece, less the trailing
   * empty ones (so `"a,"` gives `["a"]` and `","` gives `[]`).
   */
  function JavaSplit(s: string, sep: char): seq<string> {
    if sep !in s then [s] else DropTrailingEmpty(SplitAll(s, sep))
  }

  /** Stripping leaves none of the deleted characters behind. */
  lemma {:induction false} StripRemovesNoise(s: string)
    ensures forall c | c in StripArrayNoise(s) :: !IsArrayNoise(c)
  {
    if s != [] {
      StripRemovesNoise(s[1..]);
    }
  }

  /** Stripping a text that holds none of the deleted characters changes nothing. */
  lemma {:induction false} StripClean(s: string)
    requires forall c | c in s :: !IsArrayNoise(c)
    ensures StripArrayNoise(s) == s
  {
    if s != [] {
      assert s[0] in s;
      assert forall c | c in s[1..] :: c in s;
      StripClean(s[1..]);
      assert [s[0]] + s[1..] == s;
    }
  }

  /**
   * Every piece of a split is a run of characters of the text that holds no
   * separator.
   */
  lemma {:induction false} SplitAllPieces(s: string, sep: char)
    ensures forall i | 0 <= i < |SplitAll(s, sep)| :: sep !in SplitAll(s, sep)[i]
    ensures forall i, c | 0 <= i < |SplitAll(s, sep)| && c in SplitAll(s, sep)[i] :: c in s
  {
    if s != [] {
      SplitAllPieces(s[1..], sep);
      assert forall c | c in s[1..] :: c in s;
    }
  }

  /** The same holds of `String.split`, which only drops pieces. */
  lemma JavaSplitPieces(s: string, sep: char)
    ensures forall i | 0 <= i < |JavaSplit(s, sep)| :: sep !in JavaSplit(s, sep)[i]
    ensures forall i, c | 0 <= i < |JavaSplit(s, sep)| && c in JavaSplit(s, sep)[i] :: c in s
  {
    if sep in s {
      SplitAllPieces(s, sep);
    }
  }

  /** Splitting and joining again with the same separator gives back the text. */
  lemma {:induction false} JoinSplitAll(s: string, sep: char)
    ensures Join(SplitAll(s, sep), [sep]) == s
  {
    if s != [] {
      JoinSplitAll(s[1..], sep);
      var rest := SplitAll(s[1..], sep);
      if s[0] == sep {
        assert SplitAll(s, sep)[1..] == rest;
      } else if |rest| == 1 {
        assert s == [s[0]] + s[1..];
      } else {
        var r := SplitAll(s, sep);
        assert r[1..] == rest[1..];
        calc {
          Join(r, [sep]);
          r[0] + [sep] + Join(rest[1..], [sep]);
          [s[0]] + (rest[0] + [sep] + Join(rest[1..], [sep]));
          [s[0]] + Join(rest, [sep]);
          s;
        }
      }
    }
  }

  /** A first piece free of the separator stays one piece of the split. */
  lemma {:induction false} SplitAllPrefix(a: string, sep: char, rest: string)
    requires sep !in a
    ensures SplitAll(a + [sep] + rest, sep) == [a] + SplitAll(rest, sep)
  {
    if a != [] {
      var s := a + [sep] + rest;
      assert s[0] == a[0] != sep;
      assert s[1..] == a[1..] + [sep] + rest;
      SplitAllPrefix(a[1..], sep, rest);
      assert [a[0]] + a[1..] == a;
    } else {
      assert (a + [sep] + rest)[1..] == rest;
    }
  }

  lemma {:induction false} SplitAllPiece(a: string, sep: char)
    requires sep !in a
    ensures SplitAll(a, sep) == [a]
  {
    if a != [] {
      SplitAllPiece(a[1..], sep);
      assert [a[0]] + a[1..] == a;
    }
  }

  /** Joining separator-free pieces and splitting again gives back the pieces. */
  lemma {:induction false} SplitAllJoin(pieces: seq<string>, sep: char)
    requires |pieces| > 0
    requires forall i | 0 <= i < |pieces| :: sep !in pieces[i]
    ensures SplitAll(Join(pieces, [sep]), sep) == pieces
  {
    if |pieces| == 1 {
      SplitAllPiece(pieces[0], sep);
    } else {
      SplitAllJoin(pieces[1..], sep);
      SplitAllPrefix(pieces[0], sep, Join(pieces[1..], [sep]));
      assert [pieces[0]] + pieces[1..] == pieces;
    }
  }

  /** `split` undoes a join when no piece holds the separator and the last piece is not empty. */
  lemma JavaSplitJoin(pieces: seq<string>, sep: char)
    requires |pieces| > 0 && pieces[|pieces| - 1] != ""
    requires forall i | 0 <= i < |pieces| :: sep !in pieces[i]
    ensures JavaSplit(Join(pieces, [sep]), sep) == pieces
  {
    var s := Join(pieces, [sep]);
    if |pieces| == 1 {
      assert s == pieces[0];
    } else {
      assert s[|pieces[0]|] == sep;
      SplitAllJoin(pieces, sep);
    }
  }

  /** Deleting characters commutes with concatenation. */
  lemma {:induction false} StripConcat(a: string, b: string)
    ensures StripArrayNoise(a + b) == StripArrayNoise(a) + StripArrayNoise(b)
  {
    if a != [] {
      var ab := a + b;
      assert ab[0] == a[0];
      assert ab[1..] == a[1..] + b;
      StripConcat(a[1..], b);
      var head := if IsArrayNoise(a[0]) then [] else [a[0]];
      assert StripArrayNoise(ab) == head + StripArrayNoise(a[1..] + b);
      assert StripArrayNoise(a) == head + StripArrayNoise(a[1..]);
    } else {
      assert a + b == b;
    }
  }

  /** Stripping a `", "`-joined list of clean pieces leaves the `","`-joined pieces. */
  lemma {:induction false} StripJoin(pieces: seq<string>)
    requires forall i, c | 0 <= i < |pieces| && c in pieces[i] :: !IsArrayNoise(c)
    ensures StripArrayNoise(Join(pieces, ", ")) == Join(pieces, ",")
  {
    if |pieces| == 1 {
      StripClean(pieces[0]);
    } else if |pieces| > 1 {
      StripClean(pieces[0]);
      StripJoin(pieces[1..]);
      StripConcat(pieces[0] + ", ", Join(pieces[1..], ", "));
      StripConcat(pieces[0], ", ");
      assert StripArrayNoise(", ") == ",";
      assert pieces[0] + ", " + Join(pieces[1..], ", ") == (pieces[0] + ", ") + Join(pieces[1..], ", ");
    }
  }

  /** Concrete cases of `String.split(",")` on the stripped text. */
  lemma SplitExamples()
    ensures JavaSplit("a,", ',') == ["a"]
    ensures JavaSplit(",", ',') == []
    ensures JavaSplit("", ',') == [""]
    ensures JavaSplit(",a", ',') == ["", "a"]
  {
    assert SplitAll("", ',') == [""];
    assert SplitAll(",", ',') == ["", ""];
    assert "a,"[1..] == ",";
    assert "a"[1..] == "";
    SplitAllPiece("a", ',');
    assert SplitAll("a,", ',') == ["a", ""];
    assert SplitAll(",a", ',') == ["", "a"];
  }
}

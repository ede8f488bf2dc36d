/** The closed table of update commands and its case-sensitive token lookup. */
module Commands {
  import opened Wrappers

  /** The three merge rules, declared in this order. */
  datatype Command = COLLECT | INCREMENT | REPLACE {

    /** The canonical lower-case wire token of the constant. */
    function GetType(): string {
      match this
      case COLLECT => "collect"
      case INCREMENT => "increment"
      case REPLACE => "replace"
    }
  }

  /** The constants in declaration order, as `values()` lists them. */
  const Values: seq<Command> := [COLLECT, INCREMENT, REPLACE]

  /**
   * The first constant of `cs` whose token equals `token`; `None` when there
   * is none. A `None` token stands for Java `null`, which no token equals.
   */
  function FirstMatch(cs: seq<Command>, token: Option<string>): (r: Option<Command>)
    ensures r.Some? ==> r.value in cs && token == Some(r.value.GetType())
    ensures r.Some? ==> exists i | 0 <= i < |cs| :: cs[i] == r.value
                          && forall j | 0 <= j < i :: token != Some(cs[j].GetType())
    ensures r.None? ==> forall i | 0 <= i < |cs| :: token != Some(cs[i].GetType())
  {
    if cs == [] then None
    else if token == Some(cs[0].GetType()) then Some(cs[0])
    else FirstMatch(cs[1..], token)
  }

  /** `Command.fromType`: `None` stands for the `IllegalArgumentException` it throws. */
  function FromType(token: Option<string>): (r: Option<Command>)
    ensures r.Some? ==> token == Some(r.value.GetType())
    ensures r.None? <==> token !in {Some("collect"), Some("increment"), Some("replace")}
  {
    FirstMatch(Values, token)
  }

  /** No two constants share a token, so the first match is the only one. */
  lemma TokensDistinct(c: Command, d: Command)
    ensures c.GetType() == d.GetType() ==> c == d
  {
    assert "collect"[0] != "increment"[0] && "collect"[0] != "replace"[0];
    assert "increment"[0] != "replace"[0];
  }

  /** Every constant is found again from its own token. */
  lemma FromTypeGetType(c: Command)
    ensures FromType(Some(c.GetType())) == Some(c)
  {
    TokensDistinct(c, FromType(Some(c.GetType())).value);
  }

  /** The lookup is case-sensitive and rejects `null`. */
  lemma FromTypeRejects()
    ensures FromType(Some("COLLECT")) == None
    ensures FromType(Some("Replace")) == None
    ensures FromType(Some("InvalidType")) == None
    ensures FromType(None) == None
  {
    assert "COLLECT"[0] != "collect"[0];
    assert "Replace"[0] != "replace"[0];
  }
}

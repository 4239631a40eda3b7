/**
 * The GraphQL text that `ApiService.query` and `ApiService.mutate` send to
 * the Apollo client (src/app/api.service.ts). Both build the operation from a
 * name, a parameter object and field lists; `JSON.stringify` is a parameter
 * of the model and the Apollo call that receives the text is not modelled.
 */
module Api {
  import opened Js

  /** A `returnedDataFields`, `returnedExtraFields` or `returnedFields`
      argument: left out, a string, an array of field names, or `null`. */
  datatype Fields = Absent | Text(text: string) | Names(names: seq<string>) | NullFields

  /** A text, or the `TypeError` the source throws on the way to it. */
  datatype Result = Ok(text: string) | TypeError

  /** One `key: value` entry of the parameter string. */
  function Entry(entry: (string, Value), stringify: Value -> string): string {
    entry.0 + ": " + stringify(entry.1)
  }

  function Entries(ps: Props, stringify: Value -> string): (r: seq<string>)
    ensures |r| == |ps|
    ensures forall i :: 0 <= i < |ps| ==> r[i] == Entry(ps[i], stringify)
  {
    seq(|ps|, i requires 0 <= i < |ps| => Entry(ps[i], stringify))
  }

  /** The `(key: value, ...)` argument list; nothing when there are no
      parameters. */
  function ParametersString(parameters: Option<Props>, stringify: Value -> string): (r: string)
    ensures parameters.None? ==> r == ""
    ensures parameters.Some? ==> |r| >= 2 && r[0] == '(' && r[|r| - 1] == ')'
  {
    match parameters
    case None => ""
    case Some(ps) => "(" + Join(Entries(ps, stringify), ", ") + ")"
  }

  /** Without a parameter object there is no argument list; an empty object
      is not left out but gives `()`; one key gives its single entry. */
  lemma ShortParameters(entry: (string, Value), stringify: Value -> string)
    ensures ParametersString(None, stringify) == ""
    ensures ParametersString(Some([]), stringify) == "()"
    ensures ParametersString(Some([entry]), stringify) == "(" + Entry(entry, stringify) + ")"
  {
  }

  /** Putting one more key in front of a parameter object puts its entry and
      a `, ` separator in front of the other entries, so the entries appear in
      key order with `, ` exactly between neighbours. */
  lemma {:induction false} ParametersCons(entry: (string, Value), ps: Props, stringify: Value -> string)
    requires ps != []
    ensures ParametersString(Some([entry] + ps), stringify)
         == "(" + (Entry(entry, stringify) + ", " + Join(Entries(ps, stringify), ", ")) + ")"
  {
    var head := Entry(entry, stringify);
    var tail := Entries(ps, stringify);
    var all := Entries([entry] + ps, stringify);
    assert all == [head] + tail by {
      forall i | 0 <= i < |all|
        ensures all[i] == ([head] + tail)[i]
      {
        if i > 0 {
          assert ([entry] + ps)[i] == ps[i - 1];
        }
      }
    }
    JoinCons(head, tail, ", ");
    assert Join(all, ", ") == head + ", " + Join(tail, ", ");
  }

  /** The field list after the `typeof ... === 'object'` normalisation: an
      array is joined with `,`; `null` also passes the test and its `join`
      throws. `undefined` and the empty string are both falsy and are used
      alike afterwards, so both give the empty string. */
  function FieldsText(fields: Fields): (r: Result)
    ensures r.TypeError? <==> fields.NullFields?
    ensures fields.Names? ==> r == Ok(Join(fields.names, ","))
    ensures fields.Text? ==> r == Ok(fields.text)
    ensures fields.Absent? ==> r == Ok("")
  {
    match fields
    case Absent => Ok("")
    case Text(t) => Ok(t)
    case Names(ns) => Ok(Join(ns, ","))
    case NullFields => TypeError
  }

  const QueryHead: string := "\n        {\n          "
  const QueryTail: string := "\n        }\n      "
  const MutationHead: string := "\n        mutation {\n          "
  const MutationTail: string := "\n        }\n      "

  /** The operation name and its argument list, the same in both documents. */
  function Call(name: string, parameters: Option<Props>, stringify: Value -> string): (r: string)
    ensures name <= r
    ensures parameters.None? ==> r == name
  {
    name + ParametersString(parameters, stringify)
  }

  /** The selection of a query: `data` with its fields, `id` when there are
      none, followed by the extra fields. */
  function Selection(data: string, extra: string): (r: string)
    ensures " {data{" <= r && r[|r| - 1] == '}'
    ensures data == "" ==> r == " {data{id}" + extra + "}"
  {
    " {data{" + (if data == "" then "id" else data) + "}" + extra + "}"
  }

  /** The selection of a mutation: the fields in braces, or nothing. */
  function Returning(fields: string): (r: string)
    ensures |r| >= 1 && r[0] == ' '
    ensures r == " " <==> fields == ""
  {
    " " + (if fields == "" then "" else "{" + fields + "}")
  }

  /** The document `query` hands to `gql`. */
  function QueryText(name: string, parameters: Option<Props>, dataFields: Fields,
                     extraFields: Fields, stringify: Value -> string): (r: Result)
    ensures r.TypeError? <==> dataFields.NullFields? || extraFields.NullFields?
  {
    match (FieldsText(dataFields), FieldsText(extraFields))
    case (Ok(data), Ok(extra)) =>
      Ok(QueryHead + Call(name, parameters, stringify) + Selection(data, extra) + QueryTail)
    case _ => TypeError
  }

  /** The document `mutate` hands to `gql`. */
  function MutationText(name: string, parameters: Option<Props>, returnedFields: Fields,
                        stringify: Value -> string): (r: Result)
    ensures r.TypeError? <==> returnedFields.NullFields?
  {
    match FieldsText(returnedFields)
    case Ok(fields) =>
      Ok(MutationHead + Call(name, parameters, stringify) + Returning(fields) + MutationTail)
    case TypeError => TypeError
  }

  /** A query asks for `data{id}` when no data fields are given. */
  lemma DefaultDataField(name: string, parameters: Option<Props>, stringify: Value -> string)
    ensures QueryText(name, parameters, Absent, Absent, stringify)
         == Ok(QueryHead + Call(name, parameters, stringify) + " {data{id}}" + QueryTail)
  {
    assert Selection("", "") == " {data{id}}";
  }

  /** Non-empty data fields given as text appear verbatim inside `data{…}`,
      and the extra fields follow unchanged. */
  lemma StringDataKept(name: string, parameters: Option<Props>, data: string, extra: string,
                       stringify: Value -> string)
    requires data != ""
    ensures QueryText(name, parameters, Text(data), Text(extra), stringify)
         == Ok(QueryHead + Call(name, parameters, stringify) + (" {data{" + data + "}" + extra + "}")
               + QueryTail)
  {
    assert Selection(data, extra) == " {data{" + data + "}" + extra + "}";
  }

  /** Data fields given as names are joined with a bare comma, and the extra
      fields follow the `data` selection unchanged. */
  lemma DataFieldsJoined(name: string, parameters: Option<Props>, names: seq<string>, extra: string,
                         stringify: Value -> string)
    requires Join(names, ",") != ""
    ensures QueryText(name, parameters, Names(names), Text(extra), stringify)
         == Ok(QueryHead + Call(name, parameters, stringify) + (" {data{" + Join(names, ",") + "}" + extra + "}")
               + QueryTail)
  {
    assert Selection(Join(names, ","), extra) == " {data{" + Join(names, ",") + "}" + extra + "}";
  }

  /** A mutation without returned fields ends right after the argument list
      and a space. */
  lemma MutationWithoutFields(name: string, parameters: Option<Props>, stringify: Value -> string)
    ensures MutationText(name, parameters, Absent, stringify)
         == Ok(MutationHead + Call(name, parameters, stringify) + " " + MutationTail)
  {
    assert Returning("") == " ";
  }

  /** Non-empty returned fields given as text follow the argument list in
      braces. */
  lemma StringFieldsBraced(name: string, parameters: Option<Props>, fields: string,
                           stringify: Value -> string)
    requires fields != ""
    ensures MutationText(name, parameters, Text(fields), stringify)
         == Ok(MutationHead + Call(name, parameters, stringify) + (" {" + fields + "}") + MutationTail)
  {
    assert Returning(fields) == " " + ("{" + fields + "}");
    assert " " + ("{" + fields + "}") == " {" + fields + "}";
  }

  /** Returned fields given as names follow the argument list in braces,
      joined with a bare comma. */
  lemma MutationFieldsBraced(name: string, parameters: Option<Props>, fields: seq<string>,
                             stringify: Value -> string)
    requires Join(fields, ",") != ""
    ensures MutationText(name, parameters, Names(fields), stringify)
         == Ok(MutationHead + Call(name, parameters, stringify) + (" {" + Join(fields, ",") + "}") + MutationTail)
  {
    var joined := Join(fields, ",");
    assert Returning(joined) == " " + ("{" + joined + "}");
    assert " " + ("{" + joined + "}") == " {" + joined + "}";
  }

  /** `query` and `mutate` put the same operation name and the same argument
      list right after their opening brace. */
  lemma SharedParameters(name: string, parameters: Option<Props>,
                         dataFields: Fields, extraFields: Fields,
                         returnedFields: Fields, stringify: Value -> string)
    requires !dataFields.NullFields? && !extraFields.NullFields? && !returnedFields.NullFields?
    ensures QueryText(name, parameters, dataFields, extraFields, stringify).Ok?
    ensures MutationText(name, parameters, returnedFields, stringify).Ok?
    ensures QueryHead + name + ParametersString(parameters, stringify)
            <= QueryText(name, parameters, dataFields, extraFields, stringify).text
    ensures MutationHead + name + ParametersString(parameters, stringify)
            <= MutationText(name, parameters, returnedFields, stringify).text
  {
    QueryStartsWithCall(name, parameters, FieldsText(dataFields).text, FieldsText(extraFields).text, stringify);
    MutationStartsWithCall(name, parameters, FieldsText(returnedFields).text, stringify);
  }

  lemma QueryStartsWithCall(name: string, parameters: Option<Props>, data: string, extra: string,
                            stringify: Value -> string)
    ensures QueryHead + name + ParametersString(parameters, stringify)
            <= QueryHead + Call(name, parameters, stringify) + Selection(data, extra) + QueryTail
  {
    var head := QueryHead + Call(name, parameters, stringify);
    PrefixOfConcat(head, Selection(data, extra), QueryTail);
    assert head == QueryHead + name + ParametersString(parameters, stringify);
  }

  lemma MutationStartsWithCall(name: string, parameters: Option<Props>, fields: string,
                               stringify: Value -> string)
    ensures MutationHead + name + ParametersString(parameters, stringify)
            <= MutationHead + Call(name, parameters, stringify) + Returning(fields) + MutationTail
  {
    var head := MutationHead + Call(name, parameters, stringify);
    PrefixOfConcat(head, Returning(fields), MutationTail);
    assert head == MutationHead + name + ParametersString(parameters, stringify);
  }

  lemma PrefixOfConcat(prefix: string, middle: string, tail: string)
    ensures prefix <= prefix + middle + tail
  {
    assert (prefix + middle + tail)[..|prefix|] == prefix;
  }

  /** games-list.component.ts passes `null` as the data fields of its
      `gamesList` query, so that `query` throws before reaching Apollo. */
  lemma GamesListQueryThrows(extra: string, stringify: Value -> string)
    ensures QueryText("gamesList", None, NullFields, Text(extra), stringify) == TypeError
  {
  }
}

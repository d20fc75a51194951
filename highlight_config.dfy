/**
  The highlighting options the result set reads from the query's metadata: which fields to
  highlight, the markers put around matched terms, and how many fragments to keep per field.
*/
module HighlightConfig {
  import opened Results

  /** A metadata value, by the Java type the code casts it to. */
  datatype Value =
    | Null
    | Text(s: string)
    | Integer(i: int)
    | TextList(items: seq<string>)
    | Properties(entries: map<string, Value>)
    | OtherValue

  datatype Config = Config(fields: seq<string>, startElement: string, endElement: string, maxNumFragments: int)

  /** `Optional.ofNullable(m.get(key))`: an absent key and a key holding null both give None. */
  function Get(m: map<string, Value>, key: string): (v: Option<Value>)
    ensures v.Some? <==> key in m && m[key] != Null
    ensures v.Some? ==> v.value == m[key]
  {
    if key in m && m[key] != Null then Some(m[key]) else None
  }

  /** The "highlight" property as a map, empty when it is absent. */
  function HighlightOf(metadata: map<string, Value>): Result<map<string, Value>> {
    match Get(metadata, "highlight")
    case None => Success(map[])
    case Some(Properties(m)) => Success(m)
    case Some(_) => Failure(ClassCast("highlight"))
  }

  function FieldsOr(hl: map<string, Value>, default: seq<string>): Result<seq<string>> {
    match Get(hl, "fields")
    case None => Success(default)
    case Some(TextList(l)) => Success(l)
    case Some(_) => Failure(ClassCast("fields"))
  }

  function TextOr(hl: map<string, Value>, key: string, default: string): Result<string> {
    match Get(hl, key)
    case None => Success(default)
    case Some(Text(s)) => Success(s)
    case Some(_) => Failure(ClassCast(key))
  }

  function IntegerOr(hl: map<string, Value>, key: string, default: int): Result<int> {
    match Get(hl, key)
    case None => Success(default)
    case Some(Integer(n)) => Success(n)
    case Some(_) => Failure(ClassCast(key))
  }

  /** The option `key` is absent, null, or of the type the constructor casts it to. */
  predicate Castable(hl: map<string, Value>, key: string) {
    match Get(hl, key)
    case None => true
    case Some(v) =>
      if key == "fields" then v.TextList?
      else if key == "maxNumFragments" then v.Integer?
      else v.Text?
  }

  /**
    The configuration the constructor builds from the metadata. Each option takes the value the
    metadata gives it, or its default when the key is absent or null; a value of the wrong type
    makes the constructor throw, the options being read in the order fields, start, end,
    maxNumFragments.
  */
  function Resolve(metadata: map<string, Value>): (r: Result<Config>)
    ensures Get(metadata, "highlight").None? ==> r == Success(Config([], "<B>", "</B>", 2))
    ensures Get(metadata, "highlight").Some? && !Get(metadata, "highlight").value.Properties? ==>
              r == Failure(ClassCast("highlight"))
    ensures r.Success? ==> Get(metadata, "highlight").None? || Get(metadata, "highlight").value.Properties?
    ensures r.Success? && Get(metadata, "highlight").Some? ==>
              var hl := Get(metadata, "highlight").value.entries;
              (Get(hl, "fields").None? ==> r.value.fields == []) &&
              (Get(hl, "fields").Some? ==> Get(hl, "fields") == Some(TextList(r.value.fields))) &&
              (Get(hl, "start").None? ==> r.value.startElement == "<B>") &&
              (Get(hl, "start").Some? ==> Get(hl, "start") == Some(Text(r.value.startElement))) &&
              (Get(hl, "end").None? ==> r.value.endElement == "</B>") &&
              (Get(hl, "end").Some? ==> Get(hl, "end") == Some(Text(r.value.endElement))) &&
              (Get(hl, "maxNumFragments").None? ==> r.value.maxNumFragments == 2) &&
              (Get(hl, "maxNumFragments").Some? ==> Get(hl, "maxNumFragments") == Some(Integer(r.value.maxNumFragments)))
    ensures r.Success? <==>
              Get(metadata, "highlight").None?
              || (Get(metadata, "highlight").value.Properties?
                  && var hl := Get(metadata, "highlight").value.entries;
                     Castable(hl, "fields") && Castable(hl, "start") && Castable(hl, "end")
                     && Castable(hl, "maxNumFragments"))
    ensures r.Failure? ==> r.fault in {ClassCast("highlight"), ClassCast("fields"), ClassCast("start"), ClassCast("end"), ClassCast("maxNumFragments")}
  {
    var hl :- HighlightOf(metadata);
    var fields :- FieldsOr(hl, []);
    var startElement :- TextOr(hl, "start", "<B>");
    var endElement :- TextOr(hl, "end", "</B>");
    var maxNumFragments :- IntegerOr(hl, "maxNumFragments", 2);
    Success(Config(fields, startElement, endElement, maxNumFragments))
  }

  /** A highlight map whose four options are all given and well typed is taken as it is. */
  lemma ResolveKeepsGivenOptions(metadata: map<string, Value>, hl: map<string, Value>, c: Config)
    requires Get(metadata, "highlight") == Some(Properties(hl))
    requires Get(hl, "fields") == Some(TextList(c.fields))
    requires Get(hl, "start") == Some(Text(c.startElement))
    requires Get(hl, "end") == Some(Text(c.endElement))
    requires Get(hl, "maxNumFragments") == Some(Integer(c.maxNumFragments))
    ensures Resolve(metadata) == Success(c)
  {
  }

  /** A mistyped option is never silently replaced by its default. */
  lemma ResolveRejectsMistypedOption(metadata: map<string, Value>, hl: map<string, Value>, key: string)
    requires Get(metadata, "highlight") == Some(Properties(hl))
    requires key in {"fields", "start", "end", "maxNumFragments"}
    requires Get(hl, key).Some?
    requires key == "fields" ==> !Get(hl, key).value.TextList?
    requires key in {"start", "end"} ==> !Get(hl, key).value.Text?
    requires key == "maxNumFragments" ==> !Get(hl, key).value.Integer?
    ensures Resolve(metadata).Failure?
  {
  }
}

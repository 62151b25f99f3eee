/** The nested mapping the scraper builds and serialises: strings, lists and
    string-keyed objects. */
module Json {
  import opened Wrappers

  datatype Value = Str(s: string) | Arr(items: seq<Value>) | Obj(fields: map<string, Value>)

  /** A list of strings. */
  function StrList(xs: seq<string>): (j: Value)
    ensures j.Arr? && |j.items| == |xs|
    ensures forall i :: 0 <= i < |xs| ==> j.items[i] == Str(xs[i])
  {
    Arr(seq(|xs|, i requires 0 <= i < |xs| => Str(xs[i])))
  }

  /** Reads back a list of strings. */
  function AsStrList(j: Value): Option<seq<string>> {
    if j.Arr? && forall i :: 0 <= i < |j.items| ==> j.items[i].Str? then
      Some(seq(|j.items|, i requires 0 <= i < |j.items| && j.items[i].Str? => j.items[i].s))
    else None
  }

  lemma StrListRoundTrip(xs: seq<string>)
    ensures AsStrList(StrList(xs)) == Some(xs)
  {
    var j := StrList(xs);
    assert AsStrList(j).value == xs;
  }

  /** A list of rows, each a list of strings. */
  function Grid(rows: seq<seq<string>>): (j: Value)
    ensures j.Arr? && |j.items| == |rows|
    ensures forall i :: 0 <= i < |rows| ==> j.items[i] == StrList(rows[i])
  {
    Arr(seq(|rows|, i requires 0 <= i < |rows| => StrList(rows[i])))
  }

  /** Reads back a list of rows. */
  function AsGrid(j: Value): Option<seq<seq<string>>> {
    if j.Arr? && forall i :: 0 <= i < |j.items| ==> AsStrList(j.items[i]).Some? then
      Some(seq(|j.items|, i requires 0 <= i < |j.items| && AsStrList(j.items[i]).Some? =>
        AsStrList(j.items[i]).value))
    else None
  }

  lemma GridRoundTrip(rows: seq<seq<string>>)
    ensures AsGrid(Grid(rows)) == Some(rows)
  {
    var j := Grid(rows);
    forall i | 0 <= i < |rows| ensures AsStrList(j.items[i]) == Some(rows[i]) {
      StrListRoundTrip(rows[i]);
    }
    assert AsGrid(j).value == rows;
  }

  /** An object whose every value is a string. */
  function StrMap(m: map<string, string>): (j: Value)
    ensures j.Obj? && j.fields.Keys == m.Keys
    ensures forall k :: k in m ==> j.fields[k] == Str(m[k])
  {
    Obj(map k | k in m :: Str(m[k]))
  }

  /** Reads back an object whose every value is a string. */
  function AsStrMap(j: Value): Option<map<string, string>> {
    if j.Obj? && forall k :: k in j.fields ==> j.fields[k].Str? then
      Some(map k | k in j.fields :: j.fields[k].s)
    else None
  }

  lemma StrMapRoundTrip(m: map<string, string>)
    ensures AsStrMap(StrMap(m)) == Some(m)
  {
    var j := StrMap(m);
    assert AsStrMap(j).value == m;
  }
}

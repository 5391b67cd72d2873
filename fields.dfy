/**
 * Column values and rows. Every column holds text, except that the JSON text
 * of the metas column is held decoded, as the object it encodes (the JSON
 * codec itself is not part of this model); text in the metas column is
 * therefore text that does not decode to an object.
 */
module Fields {
  import opened Outcomes

  datatype Value = Text(text: string) | Object(entries: map<string, string>)

  /** A post's field map, and a row of the post table. */
  type Row = map<string, Value>

  /** The text in `column`, or None for a missing column (SQL NULL) or an object. */
  function TextOf(row: Row, column: string): (r: Option<string>)
    ensures r.Some? <==> column in row && row[column].Text?
    ensures r.Some? ==> r.value == row[column].text
  {
    if column in row && row[column].Text? then Some(row[column].text) else None
  }

  /** `DataObject.Get`: the text in `column`, "" when there is none. */
  function Get(row: Row, column: string): string {
    if column in row && row[column].Text? then row[column].text else ""
  }

  /** The map entries whose key is in `keys`. */
  function Restrict<V>(m: map<string, V>, keys: set<string>): (r: map<string, V>)
    ensures r.Keys == m.Keys * keys
    ensures forall k :: k in r ==> r[k] == m[k]
  {
    map k | k in m && k in keys :: m[k]
  }
}

/** JSON values as `JSON.parse` hands them to the extractor, and the recursive search for
    an image inside JSON-LD structured data (`findImageInJsonLd`). Parsing itself is a
    parameter of the extractor. */
module JsonLd {
  import opened Wrappers

  /** A parsed JSON value. An object lists its own properties in enumeration order
      (the order `for ... in` visits them); its keys are distinct. */
  datatype Json =
    | JNull
    | JBool(b: bool)
    | JNum(x: real)
    | JStr(s: string)
    | JArr(items: seq<Json>)
    | JObj(fields: seq<Member>)

  datatype Member = Member(key: string, value: Json)

  /** JavaScript truthiness of a parsed value (`NaN` cannot come out of `JSON.parse`). */
  predicate Truthy(v: Json)
  {
    match v
    case JNull => false
    case JBool(b) => b
    case JNum(x) => x != 0.0
    case JStr(s) => s != ""
    case JArr(_) => true
    case JObj(_) => true
  }

  predicate HasKey(fields: seq<Member>, key: string)
  {
    exists i :: 0 <= i < |fields| && fields[i].key == key
  }

  /** `obj[key]` on a parsed object: the value of the member with that key, or `undefined`. */
  function Get(fields: seq<Member>, key: string): (r: Option<Json>)
    ensures r.Some? <==> HasKey(fields, key)
    ensures r.Some? ==> exists i :: 0 <= i < |fields| && fields[i] == Member(key, r.value)
  {
    if fields == [] then None
    else if fields[0].key == key then Some(fields[0].value)
    else
      var r := Get(fields[1..], key);
      assert forall i :: 1 <= i < |fields| ==> fields[i] == fields[1..][i - 1];
      r
  }

  /** `value.url` where `value` is any parsed value: only objects have properties. */
  function UrlOf(v: Json): Option<Json>
  {
    if v.JObj? then Get(v.fields, "url") else None
  }

  /** The outcome of `findImageInJsonLd`: a returned value (which the caller still tests
      for truthiness), `null`, or a `TypeError` thrown out of the search. */
  datatype Search = Found(v: Json) | NullResult | Thrown

  /** The "direct image property" rules, tried before any nested search: `Some(outcome)`
      when one of them returns (or throws), `None` when the search must go on. */
  function DirectImage(data: Json): Option<Search>
  {
    if !data.JObj? then None
    else
      match Get(data.fields, "image")
      case None => None
      case Some(image) =>
        if !Truthy(image) then None
        else if image.JStr? then Some(Found(image))
        else if image.JArr? && image.items != [] then
          var first := image.items[0];
          if first.JStr? then Some(Found(first))
          else if first.JNull? then Some(Thrown)  // `null.url`
          else
            match UrlOf(first)
            case Some(u) => if Truthy(u) then Some(Found(u)) else Some(NullResult)
            case None => Some(NullResult)
        else
          match UrlOf(image)
          case Some(u) => if Truthy(u) then Some(Found(u)) else None
          case None => None
  }

  /** `findImageInJsonLd(data)`. A non-object (or falsy) value gives `null`; then the
      direct rules; otherwise the own properties are searched depth-first in order and
      the first truthy result wins. On a parsed object with its own `hasOwnProperty`
      member, the call `data.hasOwnProperty(key)` throws. */
  function FindImage(data: Json): Search
    decreases data
  {
    if !Truthy(data) || !(data.JObj? || data.JArr?) then NullResult
    else
      match DirectImage(data)
      case Some(outcome) => outcome
      case None =>
        if data.JArr? then SearchItems(data.items)
        else if HasKey(data.fields, "hasOwnProperty") then Thrown
        else SearchFields(data.fields)
  }

  /** Combining one property's result with the rest of the search: an exception ends it,
      a truthy value is returned, anything else moves on. */
  predicate Wins(r: Search)
  {
    r.Thrown? || (r.Found? && Truthy(r.v))
  }

  function SearchItems(items: seq<Json>): Search
    decreases items
  {
    if items == [] then NullResult
    else
      var r := FindImage(items[0]);
      if Wins(r) then r else SearchItems(items[1..])
  }

  function SearchFields(fields: seq<Member>): Search
    decreases fields
  {
    if fields == [] then NullResult
    else
      var r := FindImage(fields[0].value);
      if Wins(r) then r else SearchFields(fields[1..])
  }

  // ---------------------------------------------------------------------------
  // Properties of the search
  // ---------------------------------------------------------------------------

  /** `v` occurs somewhere inside `data` (or is `data`). */
  predicate Within(v: Json, data: Json)
    decreases data
  {
    v == data ||
    match data
    case JArr(items) => exists i :: 0 <= i < |items| && Within(v, items[i])
    case JObj(fields) => exists i :: 0 <= i < |fields| && Within(v, fields[i].value)
    case _ => false
  }

  /** Whatever the search returns is a value taken from the parsed data itself. */
  lemma {:induction false} FoundIsWithin(data: Json)
    ensures FindImage(data).Found? ==> Within(FindImage(data).v, data)
    decreases data
  {
    if Truthy(data) && (data.JObj? || data.JArr?) {
      var d := DirectImage(data);
      if d.Some? {
        if d.value.Found? {
          var image := Get(data.fields, "image").value;
          var i :| 0 <= i < |data.fields| && data.fields[i] == Member("image", image);
          assert Within(image, data.fields[i].value);
          if image.JArr? && image.items != [] {
            var first := image.items[0];
            assert Within(first, image.items[0]);
            if !first.JStr? {
              var u := Get(first.fields, "url").value;
              var j :| 0 <= j < |first.fields| && first.fields[j] == Member("url", u);
              assert Within(u, first.fields[j].value);
              assert Within(u, first);
            }
            assert Within(d.value.v, image);
          } else if !image.JStr? {
            var u := Get(image.fields, "url").value;
            var j :| 0 <= j < |image.fields| && image.fields[j] == Member("url", u);
            assert Within(u, image.fields[j].value);
            assert Within(u, image);
          }
          WithinTrans(d.value.v, image, data, i);
        }
      } else if data.JArr? {
        SearchItemsWithin(data.items);
      } else if !HasKey(data.fields, "hasOwnProperty") {
        SearchFieldsWithin(data.fields);
      }
    }
  }

  lemma WithinTrans(v: Json, image: Json, data: Json, i: nat)
    requires data.JObj? && i < |data.fields| && data.fields[i].value == image
    requires Within(v, image)
    ensures Within(v, data)
  {
  }

  lemma {:induction false} SearchItemsWithin(items: seq<Json>)
    ensures SearchItems(items).Found? ==>
              exists i :: 0 <= i < |items| && Within(SearchItems(items).v, items[i])
    decreases items
  {
    if items != [] {
      FoundIsWithin(items[0]);
      SearchItemsWithin(items[1..]);
      if !Wins(FindImage(items[0])) && SearchItems(items).Found? {
        var i :| 0 <= i < |items[1..]| && Within(SearchItems(items[1..]).v, items[1..][i]);
        assert items[1..][i] == items[i + 1];
      }
    }
  }

  lemma {:induction false} SearchFieldsWithin(fields: seq<Member>)
    ensures SearchFields(fields).Found? ==>
              exists i :: 0 <= i < |fields| && Within(SearchFields(fields).v, fields[i].value)
    decreases fields
  {
    if fields != [] {
      FoundIsWithin(fields[0].value);
      SearchFieldsWithin(fields[1..]);
      if !Wins(FindImage(fields[0].value)) && SearchFields(fields).Found? {
        var i :| 0 <= i < |fields[1..]| && Within(SearchFields(fields[1..]).v, fields[1..][i].value);
        assert fields[1..][i] == fields[i + 1];
      }
    }
  }

  /** No object anywhere in `data` has an `image` member. */
  predicate ImageFree(data: Json)
    decreases data
  {
    match data
    case JArr(items) => forall i :: 0 <= i < |items| ==> ImageFree(items[i])
    case JObj(fields) =>
      !HasKey(fields, "image") && forall i :: 0 <= i < |fields| ==> ImageFree(fields[i].value)
    case _ => true
  }

  /** Without an `image` member anywhere, the search finds nothing. */
  lemma {:induction false} NoImageNoResult(data: Json)
    requires ImageFree(data)
    ensures !FindImage(data).Found?
    decreases data
  {
    if data.JArr? {
      SearchItemsNoResult(data.items);
    } else if data.JObj? {
      SearchFieldsNoResult(data.fields);
    }
  }

  lemma {:induction false} SearchItemsNoResult(items: seq<Json>)
    requires forall i :: 0 <= i < |items| ==> ImageFree(items[i])
    ensures !SearchItems(items).Found?
    decreases items
  {
    if items != [] {
      NoImageNoResult(items[0]);
      SearchItemsNoResult(items[1..]);
    }
  }

  lemma {:induction false} SearchFieldsNoResult(fields: seq<Member>)
    requires forall i :: 0 <= i < |fields| ==> ImageFree(fields[i].value)
    ensures !SearchFields(fields).Found?
    decreases fields
  {
    if fields != [] {
      NoImageNoResult(fields[0].value);
      SearchFieldsNoResult(fields[1..]);
    }
  }

  /** Depth-first, first truthy result wins: the search over the members of an object
      returns the earliest member's result that is a truthy value (or an exception), and
      nothing when no member yields one. */
  lemma {:induction false} SearchFieldsIsEarliest(fields: seq<Member>)
    ensures Wins(SearchFields(fields)) <==>
              exists i :: 0 <= i < |fields| && Wins(FindImage(fields[i].value))
    ensures Wins(SearchFields(fields)) ==>
              exists i :: 0 <= i < |fields| && SearchFields(fields) == FindImage(fields[i].value) &&
                          forall j :: 0 <= j < i ==> !Wins(FindImage(fields[j].value))
    ensures !Wins(SearchFields(fields)) ==> SearchFields(fields) == NullResult
    decreases fields
  {
    if fields != [] && !Wins(FindImage(fields[0].value)) {
      SearchFieldsIsEarliest(fields[1..]);
      var rest := fields[1..];
      if Wins(SearchFields(fields)) {
        var i :| 0 <= i < |rest| && SearchFields(rest) == FindImage(rest[i].value) &&
                 forall j :: 0 <= j < i ==> !Wins(FindImage(rest[j].value));
        assert rest[i] == fields[i + 1];
        forall j | 0 <= j < i + 1 ensures !Wins(FindImage(fields[j].value)) {
          if j > 0 { assert fields[j] == rest[j - 1]; }
        }
      }
      if exists i :: 0 <= i < |fields| && Wins(FindImage(fields[i].value)) {
        var i :| 0 <= i < |fields| && Wins(FindImage(fields[i].value));
        assert i > 0 && rest[i - 1] == fields[i];
      }
    }
  }

  /** The direct rules as stated for an object `data` whose `image` member is `image`:
      a non-empty string is returned as is; a non-empty array decides from its first
      element alone; an object with a truthy `url` gives that `url`. */
  lemma DirectRules(fields: seq<Member>, image: Json)
    requires Get(fields, "image") == Some(image)
    ensures image.JStr? && image.s != "" ==> FindImage(JObj(fields)) == Found(image)
    ensures image.JArr? && image.items != [] && image.items[0].JStr? ==>
              FindImage(JObj(fields)) == Found(image.items[0])
    ensures image.JArr? && image.items != [] && !image.items[0].JStr? ==>
              FindImage(JObj(fields)) ==
                (if image.items[0].JNull? then Thrown
                 else if UrlOf(image.items[0]).Some? && Truthy(UrlOf(image.items[0]).value)
                 then Found(UrlOf(image.items[0]).value)
                 else NullResult)
    ensures image.JObj? && UrlOf(image).Some? && Truthy(UrlOf(image).value) ==>
              FindImage(JObj(fields)) == Found(UrlOf(image).value)
  {
  }
}

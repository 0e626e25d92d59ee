/**
 * The multipart bodies the pages build with `FormData`: text fields and an
 * uploaded image carried under its file name.
 */
module FormData {
  import opened Common

  /** One entry appended to a `FormData`. */
  datatype Part = Text(key: string, value: string) | File(key: string, fileName: string)

  /** The text `FormData.append` stores for a value: an `undefined` value becomes the text "undefined". */
  function AsText(v: Option<string>): (t: string)
    ensures v.Some? ==> t == v.value
    ensures v.None? ==> t == "undefined"
  {
    if v.Some? then v.value else "undefined"
  }

  /** The keys of a body, in the order they were appended. */
  function Keys(parts: seq<Part>): (keys: seq<string>)
    ensures |keys| == |parts|
    ensures forall i :: 0 <= i < |parts| ==> keys[i] == parts[i].key
  {
    if parts == [] then [] else [parts[0].key] + Keys(parts[1..])
  }

  /** The keys of two bodies appended are the keys of each, in order. */
  lemma {:induction false} KeysAppend(a: seq<Part>, b: seq<Part>)
    ensures Keys(a + b) == Keys(a) + Keys(b)
  {
    if a == [] {
      assert a + b == b;
    } else {
      assert (a + b)[1..] == a[1..] + b;
      KeysAppend(a[1..], b);
    }
  }
}

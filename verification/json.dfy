/** Decoded JSON documents as the dataset scripts see them after
    `json.loads`: objects are insertion-ordered dicts. Subscripting,
    item assignment and iteration follow Python's rules for the decoded
    types, including the TypeErrors raised for the wrong type. */
module Json {
  import opened Results
  import opened Dicts

  datatype Json =
    | JNull
    | JBool(b: bool)
    | JNum(n: real)
    | JStr(s: string)
    | JList(items: seq<Json>)
    | JObj(fields: Dict<string, Json>)

  /** `j[key]` for a string key: a KeyError on a dict without the key, a
      TypeError on anything that is not a dict. */
  function Member(j: Json, key: string): (r: Result<Json>)
    ensures r.Success? <==> j.JObj? && HasKey(j.fields, key)
    ensures r.Success? ==> Get(j.fields, key) == Some(r.value)
  {
    match j
    case JObj(f) =>
      (match Get(f, key)
       case Some(v) => Success(v)
       case None => Failure(KeyMissing(key)))
    case _ => Failure(NotSubscriptable)
  }

  /** `j[0]`: the first element of a list, the first character of a
      string, a KeyError on a dict (whose keys are strings). */
  function First(j: Json): (r: Result<Json>)
    ensures j.JList? && |j.items| > 0 ==> r == Success(j.items[0])
    ensures r.Success? ==> (j.JList? && |j.items| > 0) || (j.JStr? && |j.s| > 0)
  {
    match j
    case JList(items) => if |items| > 0 then Success(items[0]) else Failure(IndexOutOfRange)
    case JStr(s) => if |s| > 0 then Success(JStr([s[0]])) else Failure(IndexOutOfRange)
    case JObj(_) => Failure(KeyMissing("0"))
    case _ => Failure(NotSubscriptable)
  }

  /** `j[key] = v`: only a dict supports assignment by a string key. */
  function SetMember(j: Json, key: string, v: Json): (r: Result<Json>)
    ensures r.Success? <==> j.JObj?
    ensures r.Success? ==> r.value.JObj? && Get(r.value.fields, key) == Some(v)
    ensures r.Success? ==> forall k :: k != key ==> Member(r.value, k) == Member(j, k)
  {
    match j
    case JObj(f) =>
      assert forall k :: k != key ==> Get(Set(f, key, v), k) == Get(f, k) by {
        forall k | k != key ensures Get(Set(f, key, v), k) == Get(f, k) {
          GetSetOther(f, key, v, k);
        }
      }
      Success(JObj(Set(f, key, v)))
    case _ => Failure(NotSubscriptable)
  }

  /** What `for x in j` visits: list elements, the characters of a string
      as one-character strings, or the keys of a dict. Scalars are not
      iterable. */
  function Iterate(j: Json): (r: Result<seq<Json>>)
    ensures r.Success? <==> j.JList? || j.JStr? || j.JObj?
    ensures j.JList? ==> r == Success(j.items)
    ensures j.JStr? ==> r.Success? && |r.value| == |j.s| && forall i :: 0 <= i < |r.value| ==> r.value[i].JStr?
    ensures j.JObj? ==> r.Success? && |r.value| == |j.fields| && forall i :: 0 <= i < |r.value| ==> r.value[i].JStr?
    ensures j.JStr? ==> forall i :: 0 <= i < |j.s| ==> r.value[i] == JStr([j.s[i]])
    ensures j.JObj? ==> forall i :: 0 <= i < |j.fields| ==> r.value[i] == JStr(j.fields[i].0)
  {
    match j
    case JList(items) => Success(items)
    case JStr(s) => Success(seq(|s|, i requires 0 <= i < |s| => JStr([s[i]])))
    case JObj(f) => Success(seq(|f|, i requires 0 <= i < |f| => JStr(f[i].0)))
    case _ => Failure(NotIterable)
  }
}

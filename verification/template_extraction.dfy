/** The dataset script that lists, per episode, the template of the first
    scene object (scripts/dataset/change_dataset_obj_folder.py).

    The lookup chain for one episode sits inside a bare `try/except`, so a
    missing key, an empty object list or a value of the wrong type skips
    the episode silently; only reaching and iterating `data["episodes"]`
    can make the whole call fail. */
module TemplateExtraction {
  import opened Results
  import opened Json

  /** `ep["scene_state"]['objects'][0]['object_template']`, guarded by the
      `!= None` test on the scene state; `Success(None)` when the scene
      state is null. */
  function TemplateLookup(ep: Json): (r: Result<Option<Json>>)
    ensures Member(ep, "scene_state").Failure? ==> r.Failure?
    ensures Member(ep, "scene_state") == Success(JNull) ==> r == Success(None)
    ensures r.Success? && r.value.None? ==> Member(ep, "scene_state") == Success(JNull)
    ensures r.Success? && r.value.Some? ==>
      var objects := Member(Member(ep, "scene_state").value, "objects");
      && objects.Success? && First(objects.value).Success?
      && Member(First(objects.value).value, "object_template") == Success(r.value.value)
  {
    var state :- Member(ep, "scene_state");
    if state == JNull then Success(None)
    else
      var objects :- Member(state, "objects");
      var first :- First(objects);
      var template :- Member(first, "object_template");
      Success(Some(template))
  }

  /** What one episode appends: nothing when the lookup raised (the
      exception is swallowed) or the scene state is null. */
  function FirstTemplate(ep: Json): (r: Option<Json>)
    ensures r.Some? <==> TemplateLookup(ep).Success? && TemplateLookup(ep).value.Some?
    ensures TemplateLookup(ep).Failure? ==> r.None?
    ensures r.Some? ==> TemplateLookup(ep) == Success(r)
  {
    match TemplateLookup(ep)
    case Success(t) => t
    case Failure(_) => None
  }

  /** The values of the `Some` entries, in order. */
  function Somes<T>(xs: seq<Option<T>>): (r: seq<T>)
    ensures |r| <= |xs|
  {
    if |xs| == 0 then []
    else (if xs[0].Some? then [xs[0].value] else []) + Somes(xs[1..])
  }

  /** The `object_path` list built over the episodes, in episode order. */
  function Templates(episodes: seq<Json>): (r: seq<Json>)
    ensures |r| <= |episodes|
  {
    Somes(seq(|episodes|, i requires 0 <= i < |episodes| => FirstTemplate(episodes[i])))
  }

  /** `process_dataset(dataset)` on the decoded document. */
  function ProcessDataset(data: Json): (r: Result<seq<Json>>)
    ensures r.Success? <==> Member(data, "episodes").Success? && Iterate(Member(data, "episodes").value).Success?
    ensures r.Success? ==> |r.value| <= |Iterate(Member(data, "episodes").value).value|
    ensures r.Success? ==> r.value == Templates(Iterate(Member(data, "episodes").value).value)
  {
    var episodes :- Member(data, "episodes");
    var items :- Iterate(episodes);
    Success(Templates(items))
  }

  // ---------------------------------------------------------------------
  // Properties

  /** A single episode contributes at most one entry: the template of the
      first object of its scene state. */
  lemma TemplatesOfOne(ep: Json)
    ensures Templates([ep]) == if FirstTemplate(ep).Some? then [FirstTemplate(ep).value] else []
  {
    var xs := seq(1, i requires 0 <= i < 1 => FirstTemplate([ep][i]));
    assert xs == [FirstTemplate(ep)];
    assert xs[1..] == [];
  }

  /** Every entry comes from some episode's first object. */
  lemma {:induction false} SomesMember<T>(xs: seq<Option<T>>, v: T)
    requires v in Somes(xs)
    ensures Some(v) in xs
  {
    var head: seq<T> := if xs[0].Some? then [xs[0].value] else [];
    assert Somes(xs) == head + Somes(xs[1..]);
    if v !in head {
      SomesMember(xs[1..], v);
    }
  }

  lemma TemplatesMember(episodes: seq<Json>, t: Json)
    requires t in Templates(episodes)
    ensures exists i :: 0 <= i < |episodes| && FirstTemplate(episodes[i]) == Some(t)
  {
    var xs := seq(|episodes|, i requires 0 <= i < |episodes| => FirstTemplate(episodes[i]));
    SomesMember(xs, t);
    var i :| 0 <= i < |xs| && xs[i] == Some(t);
  }

  lemma {:induction false} SomesAppend<T>(a: seq<Option<T>>, b: seq<Option<T>>)
    ensures Somes(a + b) == Somes(a) + Somes(b)
  {
    if |a| == 0 {
      assert a + b == b;
    } else {
      var head: seq<T> := if a[0].Some? then [a[0].value] else [];
      assert (a + b)[0] == a[0];
      assert (a + b)[1..] == a[1..] + b;
      assert Somes(a + b) == head + Somes(a[1..] + b);
      SomesAppend(a[1..], b);
      assert Somes(a) == head + Somes(a[1..]);
    }
  }

  /** Templates of a concatenation are the concatenated templates. */
  lemma TemplatesAppend(a: seq<Json>, b: seq<Json>)
    ensures Templates(a + b) == Templates(a) + Templates(b)
  {
    var f := (e: Json) => FirstTemplate(e);
    var xa := seq(|a|, i requires 0 <= i < |a| => FirstTemplate(a[i]));
    var xb := seq(|b|, i requires 0 <= i < |b| => FirstTemplate(b[i]));
    var xab := seq(|a + b|, i requires 0 <= i < |a + b| => FirstTemplate((a + b)[i]));
    assert xab == xa + xb;
    SomesAppend(xa, xb);
  }

  /** An episode whose scene state is null contributes nothing, wherever
      it stands. */
  lemma NullSceneStateSkipped(before: seq<Json>, ep: Json, after: seq<Json>)
    requires Member(ep, "scene_state") == Success(JNull)
    ensures Templates(before + [ep] + after) == Templates(before + after)
  {
    TemplatesAppend(before + [ep], after);
    TemplatesAppend(before, [ep]);
    TemplatesAppend(before, after);
    assert Templates([ep]) == [];
  }

  /** An episode without a scene state, with a scene state lacking the
      `objects` key, or with an empty object list is skipped without
      failing the call. */
  lemma MalformedEpisodeSkipped(ep: Json)
    requires
      || Member(ep, "scene_state").Failure?
      || (var s := Member(ep, "scene_state").value;
          s != JNull && (Member(s, "objects").Failure? || Member(s, "objects").value == JList([])))
    ensures FirstTemplate(ep) == None
    ensures Templates([ep]) == []
  {
  }
}

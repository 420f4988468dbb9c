/** The decoded records of the post log: a post's identifier and the hubs
    (topic tags) it is filed under. */
module Posts {

  /** One entry of a post's `hubs` list; only its `alias` is read. */
  datatype Hub = Hub(alias: string)

  /** A post identifier as the log holds it: a JSON integer or a JSON string. */
  datatype PostId = IntId(n: int) | StrId(s: string)

  datatype Post = Post(id: PostId, hubs: seq<Hub>)

  const PYTHON_ALIAS: string := "python"

  /** `any(hub['alias'] == alias for hub in hubs)`: scans the hubs from the
      first and stops at the first match. */
  function AnyHubHasAlias(hubs: seq<Hub>, alias: string): (found: bool)
    ensures found <==> exists i :: 0 <= i < |hubs| && hubs[i].alias == alias
  {
    if hubs == [] then false
    else if hubs[0].alias == alias then
      assert hubs[0].alias == alias;
      true
    else
      var rest := AnyHubHasAlias(hubs[1..], alias);
      assert forall i :: 1 <= i < |hubs| ==> hubs[i] == hubs[1..][i - 1];
      rest
  }

  /** The hub predicate of `iter_python_posts`: some hub's alias is exactly
      "python" (case-sensitive, no trimming). */
  function IsPythonPost(post: Post): (python: bool)
    ensures python <==> exists i :: 0 <= i < |post.hubs| && post.hubs[i].alias == PYTHON_ALIAS
  {
    AnyHubHasAlias(post.hubs, PYTHON_ALIAS)
  }

  /** A post with no hubs is never a Python post; one whose hubs include
      "python" is, wherever that hub stands; an alias that differs only in
      case does not match. */
  lemma PythonPostCases(id: PostId, before: seq<Hub>, after: seq<Hub>)
    ensures !IsPythonPost(Post(id, []))
    ensures IsPythonPost(Post(id, before + [Hub("python")] + after))
    ensures !IsPythonPost(Post(id, [Hub("Python")]))
  {
    var hubs := before + [Hub("python")] + after;
    assert hubs[|before|].alias == PYTHON_ALIAS;
    assert Hub("Python").alias != PYTHON_ALIAS by {
      assert "Python"[0] != "python"[0];
    }
  }
}

/** `YoutubeVideoRepository`, a JPA repository keyed by `videoId`, as a
    map. */
module VideoRepository {
  import opened Wrappers
  import opened Videos

  type Repository = map<string, Video>

  /** `save`: upsert by primary key. */
  function Save(repo: Repository, v: Video): (repo': Repository)
    requires v.videoId.Some?
    ensures repo'.Keys == repo.Keys + {v.videoId.value}
    ensures repo'[v.videoId.value] == v
    ensures forall id :: id in repo && id != v.videoId.value ==> repo'[id] == repo[id]
  {
    repo[v.videoId.value := v]
  }

  /** `existsById`. */
  predicate ExistsById(repo: Repository, id: string) {
    id in repo
  }

  /** `deleteById`: removes the row; other rows stay. */
  function DeleteById(repo: Repository, id: string): (repo': Repository)
    ensures repo'.Keys == repo.Keys - {id}
    ensures forall k :: k in repo' ==> repo'[k] == repo[k]
  {
    repo - {id}
  }

  /** `findAll` returns each row once, in an order JPA leaves open. */
  predicate IsListing(repo: Repository, rows: seq<Video>) {
    && |rows| == |repo|
    && (forall i :: 0 <= i < |rows| ==> rows[i].videoId.Some? && rows[i].videoId.value in repo
                                         && repo[rows[i].videoId.value] == rows[i])
    && (forall i, j :: 0 <= i < j < |rows| ==> rows[i].videoId != rows[j].videoId)
  }

  /** A listing names every stored id: with as many rows as stored ids,
      each row a stored record and no id listed twice, no stored id is
      left out. */
  lemma {:induction false} ListingCoversRepository(repo: Repository, rows: seq<Video>)
    requires IsListing(repo, rows)
    ensures forall id :: id in repo ==> exists i :: 0 <= i < |rows| && rows[i].videoId == Some(id)
    decreases |rows|
  {
    if |rows| > 0 {
      var first := rows[0].videoId.value;
      var repo' := repo - {first};
      var rest := rows[1..];
      assert |repo'| == |repo| - 1;
      forall i | 0 <= i < |rest|
        ensures rest[i].videoId.Some? && rest[i].videoId.value in repo' && repo'[rest[i].videoId.value] == rest[i]
      {
        assert rest[i] == rows[i + 1];
        assert rows[0].videoId != rows[i + 1].videoId;
      }
      forall i, j | 0 <= i < j < |rest| ensures rest[i].videoId != rest[j].videoId {
        assert rest[i] == rows[i + 1] && rest[j] == rows[j + 1];
      }
      ListingCoversRepository(repo', rest);
      forall id | id in repo ensures exists i :: 0 <= i < |rows| && rows[i].videoId == Some(id) {
        if id != first {
          var j :| 0 <= j < |rest| && rest[j].videoId == Some(id);
          assert rows[j + 1] == rest[j];
        }
      }
    }
  }
}

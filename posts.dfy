/** The `posts` table: its rows, and the three operations of the hosted
    database that the posts handlers rely on (a filtered, ordered select,
    an insert, a delete by id). */
module Posts {
  import opened JsValues
  import opened Http

  /** The columns a create request supplies. */
  datatype NewRow = NewRow(
    tone: JsValue,
    topic: JsValue,
    content: JsValue,
    userId: JsValue,
    targetAudience: JsValue,
    targetReaction: JsValue)

  /** A stored row: the columns plus the server-assigned `id` and
      `created_at`. */
  datatype Post = Post(id: string, createdAt: int, row: NewRow)

  predicate OwnedBy(p: Post, userId: string) {
    p.row.userId == Str(userId)
  }

  /** `.eq("user_id", userId)`: the rows of the user, in table order. */
  function Owned(rows: seq<Post>, userId: string): (r: seq<Post>)
    ensures forall i :: 0 <= i < |r| ==> OwnedBy(r[i], userId) && r[i] in rows
    ensures forall i :: 0 <= i < |rows| && OwnedBy(rows[i], userId) ==> rows[i] in r
  {
    if rows == [] then []
    else
      var last := rows[|rows| - 1];
      var init := Owned(rows[..|rows| - 1], userId);
      assert forall i :: 0 <= i < |rows| - 1 ==> rows[i] == rows[..|rows| - 1][i];
      if OwnedBy(last, userId) then init + [last] else init
  }

  /** `.order("created_at", { ascending: false })`, ties in any order. */
  ghost predicate NewestFirst(s: seq<Post>) {
    forall i, j :: 0 <= i < j < |s| ==> s[i].createdAt >= s[j].createdAt
  }

  /** What the select of `GET` yields: exactly the user's rows, newest
      first. How ties in `created_at` are broken is left open. */
  ghost predicate IsListing(rows: seq<Post>, userId: string, result: seq<Post>) {
    NewestFirst(result) && multiset(result) == multiset(Owned(rows, userId))
  }

  /** Places `p` into a newest-first list in front of every row that is
      not newer. */
  function InsertNewestFirst(sorted: seq<Post>, p: Post): (r: seq<Post>)
    requires NewestFirst(sorted)
    ensures NewestFirst(r)
    ensures multiset(r) == multiset(sorted) + multiset{p}
    ensures forall i :: 0 <= i < |r| ==> r[i] == p || r[i] in sorted
  {
    if sorted == [] || sorted[0].createdAt <= p.createdAt then
      [p] + sorted
    else
      var rest := InsertNewestFirst(sorted[1..], p);
      InsertBehindHead(sorted, p, rest);
      [sorted[0]] + rest
  }

  /** The step of `InsertNewestFirst` that keeps the head in front. */
  lemma InsertBehindHead(sorted: seq<Post>, p: Post, rest: seq<Post>)
    requires NewestFirst(sorted) && sorted != [] && p.createdAt < sorted[0].createdAt
    requires NewestFirst(rest)
    requires multiset(rest) == multiset(sorted[1..]) + multiset{p}
    requires forall i :: 0 <= i < |rest| ==> rest[i] == p || rest[i] in sorted[1..]
    ensures NewestFirst([sorted[0]] + rest)
    ensures multiset([sorted[0]] + rest) == multiset(sorted) + multiset{p}
    ensures forall i :: 0 <= i < |[sorted[0]] + rest| ==> ([sorted[0]] + rest)[i] == p || ([sorted[0]] + rest)[i] in sorted
  {
    assert sorted == [sorted[0]] + sorted[1..];
    forall i | 0 <= i < |rest|
      ensures rest[i].createdAt <= sorted[0].createdAt
    {
      if rest[i] != p {
        var k :| 0 <= k < |sorted[1..]| && sorted[1..][k] == rest[i];
        assert sorted[k + 1] == rest[i];
      }
    }
    PrependNewest(sorted[0], rest);
  }

  lemma PrependNewest(x: Post, s: seq<Post>)
    requires NewestFirst(s)
    requires forall i :: 0 <= i < |s| ==> s[i].createdAt <= x.createdAt
    ensures NewestFirst([x] + s)
  {
    forall i, j | 0 <= i < j < |[x] + s|
      ensures ([x] + s)[i].createdAt >= ([x] + s)[j].createdAt
    {
      if i > 0 {
        assert ([x] + s)[i] == s[i - 1];
      }
      assert ([x] + s)[j] == s[j - 1];
    }
  }

  /** The ids present in a list of rows. */
  ghost function Ids(rows: seq<Post>): set<string> {
    set i | 0 <= i < |rows| :: rows[i].id
  }

  /** Every id names at most one row. */
  ghost predicate UniqueIds(rows: seq<Post>) {
    forall i, j :: 0 <= i < j < |rows| ==> rows[i].id != rows[j].id
  }

  /** `.delete().eq("id", id)`: the rows whose id differs, in table order. */
  function Without(rows: seq<Post>, id: string): (r: seq<Post>)
    ensures forall i :: 0 <= i < |r| ==> r[i].id != id && r[i] in rows
    ensures forall i :: 0 <= i < |rows| && rows[i].id != id ==> rows[i] in r
    ensures |r| <= |rows|
  {
    if rows == [] then []
    else
      var last := rows[|rows| - 1];
      var init := Without(rows[..|rows| - 1], id);
      assert forall i :: 0 <= i < |rows| - 1 ==> rows[i] == rows[..|rows| - 1][i];
      if last.id != id then init + [last] else init
  }

  /** The filter keeps every row of the user exactly as often as the table
      holds it, and no other row. */
  lemma {:induction false} OwnedKeepsEachRowOnce(rows: seq<Post>, userId: string)
    ensures forall p ::
      multiset(Owned(rows, userId))[p] == (if OwnedBy(p, userId) then multiset(rows)[p] else 0)
  {
    if rows != [] {
      var init := rows[..|rows| - 1];
      OwnedKeepsEachRowOnce(init, userId);
      assert rows == init + [rows[|rows| - 1]];
    }
  }

  /** The delete keeps every row with another id exactly as often as the
      table holds it, and no row with that id. */
  lemma {:induction false} WithoutKeepsEachRowOnce(rows: seq<Post>, id: string)
    ensures forall p ::
      multiset(Without(rows, id))[p] == (if p.id != id then multiset(rows)[p] else 0)
  {
    if rows != [] {
      var init := rows[..|rows| - 1];
      WithoutKeepsEachRowOnce(init, id);
      assert rows == init + [rows[|rows| - 1]];
    }
  }

  /** The error a key clash reports. Its wording comes from the database,
      which is not part of this model; the text here is illustrative. */
  const DuplicateKeyError := "duplicate key value violates unique constraint"

  /** The table as the hosted database keeps it. */
  class PostsTable {
    var rows: seq<Post>

    ghost predicate Valid()
      reads this
    {
      UniqueIds(rows)
    }

    constructor ()
      ensures Valid() && rows == []
    {
      rows := [];
    }

    /** `select("*").eq("user_id", userId).order("created_at", desc)`. */
    method Select(userId: string) returns (result: seq<Post>)
      ensures IsListing(rows, userId, result)
    {
      result := [];
      var i := 0;
      while i < |rows|
        invariant 0 <= i <= |rows|
        invariant NewestFirst(result)
        invariant multiset(result) == multiset(Owned(rows[..i], userId))
      {
        assert rows[..i + 1][..i] == rows[..i];
        if OwnedBy(rows[i], userId) {
          result := InsertNewestFirst(result, rows[i]);
        }
        i := i + 1;
      }
      assert rows[..i] == rows;
    }

    /** `insert([row]).select().single()`: the database assigns `id` and
        `created_at` (given here as `id` and `now`); a clash on the primary
        key is an error and leaves the table unchanged. */
    method Insert(row: NewRow, id: string, now: int) returns (r: Backend<Post>)
      requires Valid()
      modifies this
      ensures Valid()
      ensures id in Ids(old(rows)) ==> r == Err(DuplicateKeyError) && rows == old(rows)
      ensures id !in Ids(old(rows)) ==>
        r == Ok(Post(id, now, row)) && rows == old(rows) + [Post(id, now, row)]
    {
      var clash := false;
      var i := 0;
      while i < |rows|
        invariant 0 <= i <= |rows|
        invariant clash <==> exists j :: 0 <= j < i && rows[j].id == id
      {
        if rows[i].id == id {
          clash := true;
        }
        i := i + 1;
      }
      if clash {
        r := Err(DuplicateKeyError);
      } else {
        var post := Post(id, now, row);
        assert id !in Ids(rows);
        rows := rows + [post];
        r := Ok(post);
      }
    }

    /** `delete().eq("id", id)`: removes the matching rows, if any; deleting
        an id that is not there changes nothing and is not an error. */
    method Delete(id: string)
      requires Valid()
      modifies this
      ensures Valid()
      ensures rows == Without(old(rows), id)
      ensures id !in Ids(old(rows)) ==> rows == old(rows)
    {
      var kept: seq<Post> := [];
      var i := 0;
      while i < |rows|
        invariant 0 <= i <= |rows|
        invariant kept == Without(rows[..i], id)
      {
        assert rows[..i + 1][..i] == rows[..i];
        if rows[i].id != id {
          kept := kept + [rows[i]];
        }
        i := i + 1;
      }
      assert rows[..i] == rows;
      WithoutKeepsUniqueIds(rows, id);
      if id !in Ids(rows) {
        WithoutAbsentId(rows, id);
      }
      rows := kept;
    }
  }

  lemma {:induction false} WithoutKeepsUniqueIds(rows: seq<Post>, id: string)
    requires UniqueIds(rows)
    ensures UniqueIds(Without(rows, id))
  {
    if rows != [] {
      var init := rows[..|rows| - 1];
      assert forall i, j :: 0 <= i < j < |init| ==> init[i] == rows[i] && init[j] == rows[j];
      WithoutKeepsUniqueIds(init, id);
      var w := Without(init, id);
      var last := rows[|rows| - 1];
      if last.id != id {
        forall i | 0 <= i < |w|
          ensures w[i].id != last.id
        {
          var k :| 0 <= k < |init| && init[k] == w[i];
          assert rows[k] == w[i];
        }
      }
    }
  }

  lemma {:induction false} WithoutAbsentId(rows: seq<Post>, id: string)
    requires id !in Ids(rows)
    ensures Without(rows, id) == rows
  {
    if rows != [] {
      var init := rows[..|rows| - 1];
      assert forall i :: 0 <= i < |init| ==> init[i] == rows[i];
      assert Ids(init) <= Ids(rows);
      WithoutAbsentId(init, id);
      assert rows[|rows| - 1].id in Ids(rows);
      assert rows == init + [rows[|rows| - 1]];
    }
  }

  /** A listing holds only rows of the table that belong to the user. */
  lemma ListingHoldsOnlyOwnRows(rows: seq<Post>, userId: string, result: seq<Post>)
    requires IsListing(rows, userId, result)
    ensures forall i :: 0 <= i < |result| ==> OwnedBy(result[i], userId) && result[i] in rows
  {
    forall i | 0 <= i < |result|
      ensures OwnedBy(result[i], userId) && result[i] in rows
    {
      assert result[i] in multiset(result);
      assert result[i] in multiset(Owned(rows, userId));
    }
  }

  /** Every row of the user appears in the listing. */
  lemma ListingHoldsEveryOwnRow(rows: seq<Post>, userId: string, result: seq<Post>)
    requires IsListing(rows, userId, result)
    ensures forall i :: 0 <= i < |rows| && OwnedBy(rows[i], userId) ==> rows[i] in result
  {
    forall i | 0 <= i < |rows| && OwnedBy(rows[i], userId)
      ensures rows[i] in result
    {
      assert rows[i] in multiset(Owned(rows, userId));
      assert rows[i] in multiset(result);
    }
  }

  /** After a delete, no later listing shows the deleted id. */
  lemma DeletedPostIsNotListed(rows: seq<Post>, id: string, userId: string, result: seq<Post>)
    requires IsListing(Without(rows, id), userId, result)
    ensures forall i :: 0 <= i < |result| ==> result[i].id != id
  {
    ListingHoldsOnlyOwnRows(Without(rows, id), userId, result);
    forall i | 0 <= i < |result|
      ensures result[i].id != id
    {
      var w := Without(rows, id);
      var k :| 0 <= k < |w| && w[k] == result[i];
    }
  }

  /** After an insert, the new row is listed for its owner. */
  lemma CreatedPostIsListed(rows: seq<Post>, p: Post, userId: string, result: seq<Post>)
    requires OwnedBy(p, userId)
    requires IsListing(rows + [p], userId, result)
    ensures p in result
  {
    assert (rows + [p])[|rows|] == p;
    ListingHoldsEveryOwnRow(rows + [p], userId, result);
  }
}

/** The brochure list (backend/src/controllers/brochureController.ts): a
    table of titled links, listed newest first, added and removed one at a
    time. A brochure's creation instant is the database's `createdAt`,
    supplied here as `now`. Listing needs the support gate (ADMIN, OPS or
    SUPPORT), adding and removing the operations gate (ADMIN or OPS). */
module BrochureController {
  import opened Wrappers
  import AdminMiddleware

  datatype Brochure = Brochure(id: string, title: string, url: string, createdAt: int)

  /** Ordered by creation instant, newest first (`orderBy: { createdAt: 'desc' }`). */
  ghost predicate NewestFirst(xs: seq<Brochure>) {
    forall i, j :: 0 <= i < j < |xs| ==> xs[i].createdAt >= xs[j].createdAt
  }

  /** Inserts `b` into a newest-first list in front of the first entry not
      newer than it. */
  function InsertNewest(b: Brochure, xs: seq<Brochure>): (r: seq<Brochure>)
    requires NewestFirst(xs)
    ensures |r| == |xs| + 1
    ensures forall y :: y in r <==> y == b || y in xs
    ensures NewestFirst(r)
  {
    if xs == [] then [b]
    else if b.createdAt >= xs[0].createdAt then [b] + xs
    else
      var rest := InsertNewest(b, xs[1..]);
      HeadStaysNewest(b, xs, rest);
      [xs[0]] + rest
  }

  lemma HeadStaysNewest(b: Brochure, xs: seq<Brochure>, rest: seq<Brochure>)
    requires NewestFirst(xs) && xs != [] && b.createdAt < xs[0].createdAt
    requires NewestFirst(rest) && forall y :: y in rest ==> y == b || y in xs[1..]
    ensures NewestFirst([xs[0]] + rest)
  {
    forall j | 0 <= j < |rest| ensures xs[0].createdAt >= rest[j].createdAt {
      assert rest[j] in rest;
      if rest[j] != b {
        var m :| 0 <= m < |xs[1..]| && xs[1..][m] == rest[j];
        assert xs[m + 1] == rest[j];
      }
    }
  }

  /** The brochure table. */
  class BrochureTable {
    var rows: map<string, Brochure>

    ghost predicate Valid()
      reads this
    {
      forall k :: k in rows ==> rows[k].id == k
    }

    constructor ()
      ensures Valid() && rows == map[]
    {
      rows := map[];
    }

    /** `getAllBrochures`: every brochure exactly once, newest first. */
    method GetAllBrochures(caller: AdminMiddleware.AuthUser) returns (r: Response<seq<Brochure>>)
      requires Valid() && AdminMiddleware.Support(Some(caller))
      ensures r.Success? && r.status == 200
      ensures |r.value| == |rows|
      ensures forall b :: b in r.value <==> b in rows.Values
      ensures NewestFirst(r.value)
    {
      var rest := rows.Keys;
      var listed: seq<Brochure> := [];
      ghost var seen: set<string> := {};
      while rest != {}
        invariant rest !! seen && rest + seen == rows.Keys
        invariant |listed| == |seen|
        invariant forall b :: b in listed <==> exists k :: k in seen && rows[k] == b
        invariant NewestFirst(listed)
        decreases rest
      {
        var k :| k in rest;
        listed := InsertNewest(rows[k], listed);
        rest := rest - {k};
        seen := seen + {k};
      }
      assert seen == rows.Keys;
      assert |rows.Keys| == |rows|;
      return Success(200, listed);
    }

    /** `createBrochure`: a brochure needs a title and a URL; it is stored
      under the fresh id `rowId` with exactly the given title and URL. A
      missing field gets 400 and nothing is stored. */
    method CreateBrochure(caller: AdminMiddleware.AuthUser, title: Option<string>, url: Option<string>,
                          rowId: string, now: int)
      returns (r: Response<Brochure>)
      requires Valid() && AdminMiddleware.Ops(Some(caller)) && rowId !in rows
      modifies this
      ensures Valid()
      ensures !(Present(title) && Present(url)) ==> r == Failure(400, "Title and URL are required") && rows == old(rows)
      ensures Present(title) && Present(url) ==>
        && r == Success(201, Brochure(rowId, title.value, url.value, now))
        && rows == old(rows)[rowId := r.value]
    {
      if !(Present(title) && Present(url)) {
        return Failure(400, "Title and URL are required");
      }
      var b := Brochure(rowId, title.value, url.value, now);
      rows := rows[rowId := b];
      return Success(201, b);
    }

    /** `deleteBrochure`: removes exactly the brochure `id`; an unknown id
      fails (500) and nothing changes. */
    method DeleteBrochure(caller: AdminMiddleware.AuthUser, id: string) returns (r: Response<string>)
      requires Valid() && AdminMiddleware.Ops(Some(caller))
      modifies this
      ensures Valid()
      ensures id !in old(rows) ==> r == Failure(500, "Failed to delete brochure") && rows == old(rows)
      ensures id in old(rows) ==> r == Success(200, "Brochure deleted successfully") && rows == old(rows) - {id}
    {
      if id !in rows {
        return Failure(500, "Failed to delete brochure");
      }
      rows := rows - {id};
      return Success(200, "Brochure deleted successfully");
    }
  }
}

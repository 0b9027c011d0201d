/** The route handlers of the message API, as operations on one in-memory
    `messages` table. Each handler runs its guard checks in the order the
    server runs them and then issues at most one writing statement; each is
    atomic here. Random bytes, the current time and the configured front-end
    URL are parameters. */
module Server {
  import opened Common
  import opened Text
  import opened Hex
  import opened Schema

  /** The outcome of a handler: the success payload (status 201 for create,
      200 elsewhere), or the HTTP error the handler answers with (400, 403,
      404 or 500 in the order of the constructors) and the text of its
      `error` field. */
  datatype Response<T> =
    | Ok(value: T)
    | BadRequest(error: string)
    | Forbidden(error: string)
    | NotFound(error: string)
    | ServerError(error: string)

  /** JSON request bodies. A field is `None` when it is absent or null;
      non-string JSON values are not modelled. */
  datatype CreateBody = CreateBody(message: Option<string>, theme: Option<string>,
                                   photoUrl: Option<string>, quote: Option<string>)
  datatype UpdateBody = UpdateBody(message: Option<string>, photoUrl: Option<string>,
                                   quote: Option<string>, editKey: Option<string>)

  /** The payload of a successful create. */
  datatype Created = Created(id: string, editKey: string, viewUrl: string)

  /** `!message || !message.trim()`. */
  function MessageMissing(message: Option<string>): (missing: bool)
    ensures missing <==> message.None? || AllWhitespace(message.value)
  {
    message.None? || IsBlank(message.value)
  }

  /** `process.env.FRONTEND_URL || 'http://localhost:3000'`. */
  function FrontendUrl(env: Option<string>): (url: string)
    ensures Present(env) ==> url == env.value
    ensures !Present(env) ==> url == "http://localhost:3000"
  {
    if Present(env) then env.value else "http://localhost:3000"
  }

  /** The shareable link the create handler returns. */
  function ViewUrl(frontendUrl: string, id: string): (url: string)
    ensures |url| == |frontendUrl| + |"/#/view/"| + |id|
    ensures url[..|frontendUrl|] == frontendUrl
    ensures url[|frontendUrl|..] == "/#/view/" + id
  {
    frontendUrl + "/#/view/" + id
  }

  /** The row `(id, editKey)` names, if any: the SELECT both mutating
      handlers run before they write. */
  function Authorized(t: Table, id: string, editKey: string): (authorized: bool)
    ensures TableInvariant(t) ==>
      (authorized <==> exists k | k in t :: t[k].id == id && t[k].editKey == editKey)
  {
    id in t && t[id].editKey == editKey
  }

  /** GET /api/messages/:id. */
  function GetById(t: Table, id: string): (r: Response<Projection>)
    ensures r.Ok? <==> id in t
    ensures r.Ok? ==> r.value == Project(t[id]) && r.value.id == t[id].id
    ensures !r.Ok? ==> r == NotFound("Message not found")
  {
    if id in t then Ok(Project(t[id])) else NotFound("Message not found")
  }

  /** GET /api/messages/edit/:editKey; the UNIQUE constraint makes the
      matching row, when there is one, the only one. */
  function GetByEditKey(t: Table, editKey: string): (r: Response<Projection>)
    requires TableInvariant(t)
    ensures r.Ok? <==> exists k :: k in t && t[k].editKey == editKey
    ensures r.Ok? ==> r.value.id in t && t[r.value.id].editKey == editKey
                      && r.value == Project(t[r.value.id])
    ensures !r.Ok? ==> r == NotFound("Invalid edit key")
  {
    if exists k :: k in t && t[k].editKey == editKey then
      var k :| k in t && t[k].editKey == editKey;
      Ok(Project(t[k]))
    else
      NotFound("Invalid edit key")
  }

  /** Both lookups of a stored row give the same projection. */
  lemma ReadsAgree(t: Table, id: string)
    requires TableInvariant(t) && id in t
    ensures GetByEditKey(t, t[id].editKey) == GetById(t, id)
  {
    var r := GetByEditKey(t, t[id].editKey);
    assert r.Ok?;
    assert r.value.id == id;
  }

  /** A read by id never depends on any edit key: tables that differ only in
      their secrets answer every id with the same response. */
  lemma ReadByIdHidesEditKeys(t1: Table, t2: Table, id: string)
    requires SameButEditKeys(t1, t2)
    ensures GetById(t1, id) == GetById(t2, id)
  {
  }

  /** A read by edit key reveals nothing the key holder could not read by id. */
  lemma ReadByEditKeyIsReadById(t: Table, editKey: string)
    requires TableInvariant(t)
    requires GetByEditKey(t, editKey).Ok?
    ensures GetByEditKey(t, editKey) == GetById(t, GetByEditKey(t, editKey).value.id)
  {
  }

  /** At most this many rows are listed by the admin endpoint. */
  const AdminLimit: nat := 100

  /** A possible answer of `SELECT id, LEFT(message, 50), theme, scan_count,
      created_at FROM messages ORDER BY created_at DESC LIMIT 100`: distinct
      rows, newest first, as many as the limit allows, and no unlisted row is
      newer than a listed one. Rows with equal timestamps may come in any
      order. */
  ghost predicate IsRecentListing(t: Table, list: seq<Summary>)
  {
    && |list| == Min(AdminLimit, |t|)
    && (forall i | 0 <= i < |list| :: list[i].id in t && list[i] == Summarize(t[list[i].id]))
    && (forall i, j | 0 <= i < j < |list| :: list[i].id != list[j].id)
    && (forall i, j | 0 <= i < j < |list| :: list[i].createdAt >= list[j].createdAt)
    && (forall k, i | k in t && 0 <= i < |list| && k !in ListedIds(list) ::
          t[k].createdAt <= list[i].createdAt)
  }

  ghost function ListedIds(list: seq<Summary>): set<string>
  {
    set i | 0 <= i < |list| :: list[i].id
  }

  /** The state of the selection loop that computes the admin listing: `list`
      holds the newest rows in order, `remaining` the rows not listed yet. */
  ghost predicate ListingSoFar(t: Table, list: seq<Summary>, remaining: set<string>)
  {
    ListingCovers(t, list, remaining) && ListingOrdered(t, list, remaining)
  }

  /** The listed and the remaining ids split the table's ids. */
  ghost predicate ListingCovers(t: Table, list: seq<Summary>, remaining: set<string>)
  {
    && t.Keys == remaining + ListedIds(list)
    && remaining !! ListedIds(list)
    && |remaining| + |list| == |t.Keys|
  }

  /** The listed rows are distinct summaries, newest first, and none of the
      remaining rows is newer than any of them. */
  ghost predicate ListingOrdered(t: Table, list: seq<Summary>, remaining: set<string>)
  {
    && remaining <= t.Keys
    && (forall i | 0 <= i < |list| :: list[i].id in t && list[i] == Summarize(t[list[i].id]))
    && (forall i, j | 0 <= i < j < |list| :: list[i].id != list[j].id)
    && (forall i, j | 0 <= i < j < |list| :: list[i].createdAt >= list[j].createdAt)
    && (forall k, i | k in remaining && 0 <= i < |list| :: t[k].createdAt <= list[i].createdAt)
  }

  /** Listing a newest remaining row next keeps the loop's invariant. */
  lemma ExtendListing(t: Table, list: seq<Summary>, remaining: set<string>, newest: string)
    requires newest in t && t[newest].id == newest
    requires ListingSoFar(t, list, remaining)
    requires newest in remaining
    requires forall k | k in remaining :: t[k].createdAt <= t[newest].createdAt
    ensures ListingSoFar(t, list + [Summarize(t[newest])], remaining - {newest})
  {
    ListedIdsAppend(list, Summarize(t[newest]));
    ExtendCovers(t, list, remaining, newest);
    ExtendOrdered(t, list, remaining, newest);
  }

  lemma ExtendCovers(t: Table, list: seq<Summary>, remaining: set<string>, newest: string)
    requires newest in t && t[newest].id == newest
    requires ListingCovers(t, list, remaining)
    requires newest in remaining
    requires ListedIds(list + [Summarize(t[newest])]) == ListedIds(list) + {newest}
    ensures ListingCovers(t, list + [Summarize(t[newest])], remaining - {newest})
  {
    assert |remaining - {newest}| == |remaining| - 1;
  }

  lemma ExtendOrdered(t: Table, list: seq<Summary>, remaining: set<string>, newest: string)
    requires newest in t && t[newest].id == newest
    requires ListingOrdered(t, list, remaining)
    requires newest in remaining && remaining !! ListedIds(list)
    requires forall k | k in remaining :: t[k].createdAt <= t[newest].createdAt
    ensures ListingOrdered(t, list + [Summarize(t[newest])], remaining - {newest})
  {
    var list' := list + [Summarize(t[newest])];
    forall i | 0 <= i < |list|
      ensures list[i].id != newest
    {
      assert list[i].id in ListedIds(list);
    }
    forall i, j | 0 <= i < j < |list'|
      ensures list'[i].id != list'[j].id && list'[i].createdAt >= list'[j].createdAt
    {
      if j == |list| {
        assert list'[i] == list[i];
      }
    }
  }

  lemma ListedIdsAppend(list: seq<Summary>, x: Summary)
    ensures ListedIds(list + [x]) == ListedIds(list) + {x.id}
  {
    var list' := list + [x];
    forall y | y in ListedIds(list')
      ensures y in ListedIds(list) + {x.id}
    {
      var i :| 0 <= i < |list'| && list'[i].id == y;
      if i < |list| {
        assert list[i].id == y;
      }
    }
    forall y | y in ListedIds(list) + {x.id}
      ensures y in ListedIds(list')
    {
      if y == x.id {
        assert list'[|list|].id == y;
      } else {
        var i :| 0 <= i < |list| && list[i].id == y;
        assert list'[i].id == y;
      }
    }
  }

  /** When the loop stops, the list is a full answer to the query. */
  lemma FinishListing(t: Table, list: seq<Summary>, remaining: set<string>)
    requires ListingSoFar(t, list, remaining)
    requires |list| <= AdminLimit
    requires |list| == AdminLimit || remaining == {}
    ensures IsRecentListing(t, list)
  {
    assert |t| == |t.Keys|;
    forall k, i | k in t && 0 <= i < |list| && k !in ListedIds(list)
      ensures t[k].createdAt <= list[i].createdAt
    {
      assert k in remaining;
    }
  }

  lemma ListingHidesEditKeys(t1: Table, t2: Table, list: seq<Summary>)
    requires SameButEditKeys(t1, t2)
    requires IsRecentListing(t1, list)
    ensures IsRecentListing(t2, list)
  {
    assert |t1| == |t1.Keys| == |t2.Keys| == |t2|;
  }

  /** The message table as the running server holds it. */
  class MessageTable {
    var rows: Table

    ghost predicate Valid()
      reads this
    {
      TableInvariant(rows)
    }

    constructor ()
      ensures Valid() && rows == map[]
    {
      rows := map[];
    }

    /** POST /api/messages. The id and the edit key are the hex encodings of
        fresh random bytes. */
    method Create(body: CreateBody, idBytes: seq<byte>, keyBytes: seq<byte>,
                  now: Timestamp, frontendUrl: string) returns (r: Response<Created>)
      requires Valid()
      requires |idBytes| == IdBytes && |keyBytes| == EditKeyBytes
      requires HexEncode(idBytes) !in rows && EditKeyFree(rows, HexEncode(keyBytes))
      modifies this
      ensures Valid()
      ensures MessageMissing(body.message) ==>
        r == BadRequest("Message is required") && rows == old(rows)
      ensures !MessageMissing(body.message) && ParseTheme(body.theme).None? ==>
        r == BadRequest("Invalid theme") && rows == old(rows)
      ensures !MessageMissing(body.message) && ParseTheme(body.theme).Some? ==>
        var id, editKey := HexEncode(idBytes), HexEncode(keyBytes);
        && r == Ok(Created(id, editKey, ViewUrl(frontendUrl, id)))
        && rows == old(rows)[id := NewRow(id, editKey, Trim(body.message.value),
                                          ParseTheme(body.theme).value,
                                          OrNull(body.photoUrl), OrNull(body.quote), now)]
    {
      if MessageMissing(body.message) {
        return BadRequest("Message is required");
      }
      var theme := ParseTheme(body.theme);
      if theme.None? {
        return BadRequest("Invalid theme");
      }
      var id := HexEncode(idBytes);
      var editKey := HexEncode(keyBytes);
      var message := Trim(body.message.value);
      TrimIdempotent(body.message.value);
      var row := NewRow(id, editKey, message, theme.value, OrNull(body.photoUrl), OrNull(body.quote), now);
      InsertKeepsInvariant(rows, row);
      rows := rows[id := row];
      r := Ok(Created(id, editKey, ViewUrl(frontendUrl, id)));
    }

    /** PUT /api/messages/:id. */
    method Update(id: string, body: UpdateBody, now: Timestamp) returns (r: Response<()>)
      requires Valid()
      modifies this
      ensures Valid()
      ensures rows != old(rows) ==> Present(body.editKey) && Authorized(old(rows), id, body.editKey.value)
      ensures MessageMissing(body.message) ==>
        r == BadRequest("Message is required") && rows == old(rows)
      ensures !MessageMissing(body.message) && !Present(body.editKey) ==>
        r == BadRequest("Edit key is required") && rows == old(rows)
      ensures !MessageMissing(body.message) && Present(body.editKey)
              && !Authorized(old(rows), id, body.editKey.value) ==>
        r == Forbidden("Invalid edit key or message not found") && rows == old(rows)
      ensures !MessageMissing(body.message) && Present(body.editKey)
              && Authorized(old(rows), id, body.editKey.value) ==>
        && r == Ok(())
        && rows == SetContent(old(rows), id, Trim(body.message.value),
                              OrNull(body.photoUrl), OrNull(body.quote), now)
    {
      if MessageMissing(body.message) {
        return BadRequest("Message is required");
      }
      if !Present(body.editKey) {
        return BadRequest("Edit key is required");
      }
      if !Authorized(rows, id, body.editKey.value) {
        return Forbidden("Invalid edit key or message not found");
      }
      var message := Trim(body.message.value);
      TrimIdempotent(body.message.value);
      SetContentKeepsInvariant(rows, id, message, OrNull(body.photoUrl), OrNull(body.quote), now);
      rows := SetContent(rows, id, message, OrNull(body.photoUrl), OrNull(body.quote), now);
      r := Ok(());
    }

    /** PATCH /api/messages/:id/scan. No authorization; an unknown id is still
        a success. Incrementing past the INT column's maximum is rejected by
        the database (strict SQL mode), which the handler reports as 500. */
    method Scan(id: string, now: Timestamp) returns (r: Response<()>)
      requires Valid()
      modifies this
      ensures Valid()
      ensures id in old(rows) && old(rows)[id].scanCount == IntMax ==>
        r == ServerError("Failed to update scan count") && rows == old(rows)
      ensures !(id in old(rows) && old(rows)[id].scanCount == IntMax) ==>
        r == Ok(()) && rows == IncrementScan(old(rows), id, now)
    {
      if id in rows && rows[id].scanCount == IntMax {
        return ServerError("Failed to update scan count");
      }
      IncrementScanKeepsInvariant(rows, id, now);
      rows := IncrementScan(rows, id, now);
      r := Ok(());
    }

    /** DELETE /api/messages/:id. */
    method Delete(id: string, editKey: Option<string>) returns (r: Response<()>)
      requires Valid()
      modifies this
      ensures Valid()
      ensures rows != old(rows) ==> Present(editKey) && Authorized(old(rows), id, editKey.value)
      ensures !Present(editKey) ==> r == BadRequest("Edit key is required") && rows == old(rows)
      ensures Present(editKey) && !Authorized(old(rows), id, editKey.value) ==>
        r == Forbidden("Invalid edit key") && rows == old(rows)
      ensures Present(editKey) && Authorized(old(rows), id, editKey.value) ==>
        && r == Ok(()) && rows == DeleteRow(old(rows), id)
        && GetById(rows, id) == NotFound("Message not found")
    {
      if !Present(editKey) {
        return BadRequest("Edit key is required");
      }
      if !Authorized(rows, id, editKey.value) {
        return Forbidden("Invalid edit key");
      }
      DeleteRowKeepsInvariant(rows, id);
      rows := DeleteRow(rows, id);
      r := Ok(());
    }

    /** A row of `candidates` with the largest `created_at`. */
    method NewestOf(candidates: set<string>) returns (newest: string)
      requires candidates <= rows.Keys && candidates != {}
      ensures newest in candidates
      ensures forall k | k in candidates :: rows[k].createdAt <= rows[newest].createdAt
    {
      newest :| newest in candidates;
      var rest := candidates - {newest};
      while rest != {}
        invariant rest <= candidates && newest in candidates && newest !in rest
        invariant forall k | k in candidates && k !in rest :: rows[k].createdAt <= rows[newest].createdAt
        decreases rest
      {
        var k :| k in rest;
        if rows[k].createdAt > rows[newest].createdAt {
          newest := k;
        }
        rest := rest - {k};
      }
    }

    /** GET /api/admin/messages: repeatedly selects a newest remaining row. */
    method ListRecent() returns (list: seq<Summary>)
      requires Valid()
      ensures IsRecentListing(rows, list)
    {
      var remaining := rows.Keys;
      list := [];
      while |list| < AdminLimit && remaining != {}
        invariant |list| <= AdminLimit
        invariant ListingSoFar(rows, list, remaining)
        decreases remaining
      {
        var newest := NewestOf(remaining);
        ExtendListing(rows, list, remaining, newest);
        list := list + [Summarize(rows[newest])];
        remaining := remaining - {newest};
      }
      FinishListing(rows, list, remaining);
    }
  }
}

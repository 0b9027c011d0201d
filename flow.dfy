/** End-to-end properties that connect the server, the client router, the
    forms and the reveal screen. */
module Flow {
  import opened Common
  import opened Text
  import opened Hex
  import opened Schema
  import opened Server
  import opened Router
  import opened ClientForms
  import Reveal

  /** The link the create handler returns opens the view page of exactly
      the message it created, for any front-end URL without a `#`. */
  lemma ViewLinkOpensMessage(frontendUrl: string, idBytes: seq<byte>)
    requires '#' !in frontendUrl
    ensures ParseRoute(HashPath(LocationHash(ViewUrl(frontendUrl, HexEncode(idBytes)))))
            == Route(View, Some(HexEncode(idBytes)))
  {
    var id := HexEncode(idBytes);
    HexTokenHasNoDelimiters(id, 2 * |idBytes|);
    ViewLinkPath(frontendUrl, id);
    ViewRouteRoundTrip(id);
  }

  /** The path the client routes by, for a view link. */
  lemma ViewLinkPath(frontendUrl: string, id: string)
    requires '#' !in frontendUrl
    ensures HashPath(LocationHash(ViewUrl(frontendUrl, id))) == "/view/" + id
  {
    var fragment := "#/view/" + id;
    var prefix := frontendUrl + "/";
    assert ViewUrl(frontendUrl, id) == prefix + fragment;
    assert '#' !in prefix;
    LocationHashSkipsPrefix(prefix, fragment);
    assert fragment[0] == '#' && |fragment| > 1;
    assert fragment[1..] == "/view/" + id;
  }

  /** After a successful create the new message can be read back both by
      its id and by its edit key, with the trimmed text, no scans yet, and
      empty optional fields as NULL. */
  lemma CreatedMessageReadable(t: Table, body: CreateBody, idBytes: seq<byte>, keyBytes: seq<byte>,
                               now: Timestamp)
    requires TableInvariant(t)
    requires |idBytes| == IdBytes && |keyBytes| == EditKeyBytes
    requires HexEncode(idBytes) !in t && EditKeyFree(t, HexEncode(keyBytes))
    requires !MessageMissing(body.message) && ParseTheme(body.theme).Some?
    ensures
      var id, key := HexEncode(idBytes), HexEncode(keyBytes);
      var t' := t[id := NewRow(id, key, Trim(body.message.value), ParseTheme(body.theme).value,
                               OrNull(body.photoUrl), OrNull(body.quote), now)];
      && TableInvariant(t')
      && GetById(t', id) == Ok(Projection(id, Trim(body.message.value), ParseTheme(body.theme).value,
                                          OrNull(body.photoUrl), OrNull(body.quote), 0, now))
      && GetByEditKey(t', key) == GetById(t', id)
  {
    var id, key := HexEncode(idBytes), HexEncode(keyBytes);
    var row := NewRow(id, key, Trim(body.message.value), ParseTheme(body.theme).value,
                      OrNull(body.photoUrl), OrNull(body.quote), now);
    TrimIdempotent(body.message.value);
    InsertKeepsInvariant(t, row);
    ReadsAgree(t[id := row], id);
  }

  /** Loading a message into the edit form and saving it unchanged, with
      the key it was loaded by, passes every server check and leaves the
      row's content as it was; only `updated_at` moves. */
  lemma UnchangedEditKeepsContent(t: Table, id: string, now: Timestamp)
    requires TableInvariant(t) && id in t
    ensures
      var body := SubmitUpdate(EditFormOf(Project(t[id])), t[id].editKey);
      && body.Some?
      && !MessageMissing(body.value.message)
      && Present(body.value.editKey) && Authorized(t, id, body.value.editKey.value)
      && SetContent(t, id, Trim(body.value.message.value), OrNull(body.value.photoUrl),
                    OrNull(body.value.quote), now)[id]
         == t[id].(updatedAt := now)
  {
    var r := t[id];
    assert WellFormedRow(r);
    assert !IsBlank(r.message) by {
      assert Trim(r.message) == r.message;
    }
    assert r.editKey != "" by {
      assert |r.editKey| == 2 * EditKeyBytes;
    }
  }

  /** However often a visitor clicks in one session, the message's scan
      count grows by one if the view was unlocked and not at all before. */
  lemma SessionCountsOneScan(t: Table, id: string, now: Timestamp, clicks: nat)
    requires id in t
    ensures
      var sent := Reveal.Clicks(Reveal.Fresh, clicks).scansSent;
      IncrementScanTimes(t, id, now, sent)[id].scanCount
        == t[id].scanCount + (if clicks >= Reveal.ClickThreshold then 1 else 0)
  {
    Reveal.ClicksFromFresh(clicks);
    IncrementScanAddsUp(t, id, now, Reveal.Clicks(Reveal.Fresh, clicks).scansSent);
  }
}

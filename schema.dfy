/** The `messages` table: the row shape and the invariants its DDL imposes
    (PRIMARY KEY id, UNIQUE edit_key, the theme ENUM, INT scan_count with
    default 0, the two timestamps), the projections the read handlers select,
    and the table-level effect of each SQL statement the handlers issue. */
module Schema {
  import opened Common
  import opened Text
  import opened Hex

  /** The `theme` ENUM column, also the list the create handler accepts. */
  datatype Theme = Romantic | Friendship | Motivation | General

  function ThemeName(t: Theme): string
  {
    match t
    case Romantic => "romantic"
    case Friendship => "friendship"
    case Motivation => "motivation"
    case General => "general"
  }

  /** `['romantic', 'friendship', 'motivation', 'general'].includes(theme)`:
      only one of the four names, as a string, is accepted. */
  function ParseTheme(s: Option<string>): (t: Option<Theme>)
    ensures t.Some? ==> s == Some(ThemeName(t.value))
    ensures t.None? ==> forall th: Theme :: s != Some(ThemeName(th))
  {
    match s
    case Some("romantic") => Some(Romantic)
    case Some("friendship") => Some(Friendship)
    case Some("motivation") => Some(Motivation)
    case Some("general") => Some(General)
    case _ => None
  }

  lemma ParseThemeName(t: Theme)
    ensures ParseTheme(Some(ThemeName(t))) == Some(t)
  {
  }

  /** The largest value of the signed 32-bit INT column `scan_count`. */
  const IntMax: nat := 2147483647

  /** Bytes of randomness behind a message id and an edit key. */
  const IdBytes: nat := 8
  const EditKeyBytes: nat := 16

  /** A TIMESTAMP value, in seconds. */
  type Timestamp = nat

  datatype Row = Row(
    id: string,
    message: string,
    theme: Theme,
    photoUrl: Option<string>,
    quote: Option<string>,
    editKey: string,
    scanCount: nat,
    createdAt: Timestamp,
    updatedAt: Timestamp)

  /** The table, keyed by its primary key. */
  type Table = map<string, Row>

  /** JavaScript truthiness of an optional string field of a JSON body:
      absent, null and the empty string are all falsy. */
  predicate Present(v: Option<string>)
  {
    v.Some? && v.value != ""
  }

  /** `v || null`: an empty or absent optional field is stored as NULL. */
  function OrNull(v: Option<string>): (r: Option<string>)
    ensures r.None? <==> !Present(v)
    ensures r.Some? ==> r == v && r.value != ""
  {
    if Present(v) then v else None
  }

  /** What the handlers ever write into `photo_url` and `quote`. */
  predicate StoredOptional(v: Option<string>)
  {
    v.None? || v.value != ""
  }

  predicate WellFormedRow(r: Row)
  {
    && IsHexToken(r.id, 2 * IdBytes)
    && IsHexToken(r.editKey, 2 * EditKeyBytes)
    && r.message != [] && Trim(r.message) == r.message
    && StoredOptional(r.photoUrl) && StoredOptional(r.quote)
    && r.scanCount <= IntMax
  }

  predicate EditKeyFree(t: Table, key: string)
  {
    forall k | k in t :: t[k].editKey != key
  }

  /** Every row sits under its own id, is well formed, and no two rows share
      an edit key. */
  predicate TableInvariant(t: Table)
    ensures TableInvariant(t) ==> forall k | k in t :: IsHexToken(k, 2 * IdBytes)
    ensures TableInvariant(t) ==>
      forall k1, k2 | k1 in t && k2 in t && t[k1].editKey == t[k2].editKey :: k1 == k2
  {
    && (forall k | k in t :: t[k].id == k && WellFormedRow(t[k]))
    && (forall k1, k2 | k1 in t && k2 in t && k1 != k2 :: t[k1].editKey != t[k2].editKey)
  }

  /** The row the INSERT of the create handler writes: the columns it names,
      plus the defaults `scan_count = 0` and both timestamps set to now. */
  function NewRow(id: string, editKey: string, message: string, theme: Theme,
                  photoUrl: Option<string>, quote: Option<string>, now: Timestamp): (r: Row)
    ensures r.id == id && r.editKey == editKey && r.message == message && r.theme == theme
    ensures r.photoUrl == photoUrl && r.quote == quote
    ensures r.scanCount == 0 && r.createdAt == now && r.updatedAt == now
  {
    Row(id, message, theme, photoUrl, quote, editKey, 0, now, now)
  }

  /** Two rows that agree on every column except `scan_count` and `updated_at`. */
  predicate SameExceptCounters(a: Row, b: Row)
  {
    && a.id == b.id && a.message == b.message && a.theme == b.theme
    && a.photoUrl == b.photoUrl && a.quote == b.quote
    && a.editKey == b.editKey && a.createdAt == b.createdAt
  }

  /** `UPDATE messages SET message = ?, photo_url = ?, quote = ?,
      updated_at = CURRENT_TIMESTAMP WHERE id = ?`. */
  function SetContent(t: Table, id: string, message: string, photoUrl: Option<string>,
                      quote: Option<string>, now: Timestamp): (t': Table)
    ensures t'.Keys == t.Keys
    ensures forall k | k in t && k != id :: t'[k] == t[k]
    ensures id in t ==>
      && t'[id].message == message && t'[id].photoUrl == photoUrl && t'[id].quote == quote
      && t'[id].updatedAt == now
      && t'[id].id == t[id].id && t'[id].theme == t[id].theme && t'[id].editKey == t[id].editKey
      && t'[id].scanCount == t[id].scanCount && t'[id].createdAt == t[id].createdAt
  {
    if id in t then t[id := t[id].(message := message, photoUrl := photoUrl, quote := quote, updatedAt := now)]
    else t
  }

  /** `UPDATE messages SET scan_count = scan_count + 1 WHERE id = ?`; the
      column's ON UPDATE clause also moves `updated_at` to now. */
  function IncrementScan(t: Table, id: string, now: Timestamp): (t': Table)
    ensures t'.Keys == t.Keys
    ensures forall k | k in t && k != id :: t'[k] == t[k]
    ensures id in t ==>
      && t'[id].scanCount == t[id].scanCount + 1 && t'[id].updatedAt == now
      && SameExceptCounters(t'[id], t[id])
  {
    if id in t then t[id := t[id].(scanCount := t[id].scanCount + 1, updatedAt := now)] else t
  }

  /** `DELETE FROM messages WHERE id = ?`. */
  function DeleteRow(t: Table, id: string): (t': Table)
    ensures t'.Keys == t.Keys - {id}
    ensures forall k | k in t' :: t'[k] == t[k]
  {
    t - {id}
  }

  /** `n` increments of the same row, one after another. */
  function IncrementScanTimes(t: Table, id: string, now: Timestamp, n: nat): (t': Table)
    ensures t'.Keys == t.Keys
  {
    if n == 0 then t else IncrementScan(IncrementScanTimes(t, id, now, n - 1), id, now)
  }

  /** Sequential increments add up: after `n` of them the row's count has
      grown by exactly `n` and no other row has changed. */
  lemma {:induction false} IncrementScanAddsUp(t: Table, id: string, now: Timestamp, n: nat)
    requires id in t
    ensures IncrementScanTimes(t, id, now, n)[id].scanCount == t[id].scanCount + n
    ensures SameExceptCounters(IncrementScanTimes(t, id, now, n)[id], t[id])
    ensures forall k | k in t && k != id :: IncrementScanTimes(t, id, now, n)[k] == t[k]
  {
    if n > 0 {
      IncrementScanAddsUp(t, id, now, n - 1);
    }
  }

  lemma InsertKeepsInvariant(t: Table, r: Row)
    requires TableInvariant(t) && WellFormedRow(r)
    requires r.id !in t && EditKeyFree(t, r.editKey)
    ensures TableInvariant(t[r.id := r])
  {
  }

  /** An in-place UPDATE that changes neither key column keeps both
      uniqueness constraints, provided the rows it writes are well formed. */
  lemma IdentitiesKeptKeepInvariant(t: Table, t': Table)
    requires TableInvariant(t)
    requires t'.Keys == t.Keys
    requires forall k | k in t :: t'[k].id == t[k].id && t'[k].editKey == t[k].editKey && WellFormedRow(t'[k])
    ensures TableInvariant(t')
  {
    forall k1, k2 | k1 in t' && k2 in t' && k1 != k2
      ensures t'[k1].editKey != t'[k2].editKey
    {
      assert t[k1].editKey != t[k2].editKey;
    }
  }

  /** A row keeps its well-formedness through a write that leaves the id
      and the edit key alone and stores well-formed values. */
  lemma RowEditWellFormed(r: Row, r': Row)
    requires WellFormedRow(r)
    requires r'.id == r.id && r'.editKey == r.editKey
    requires r'.message != [] && Trim(r'.message) == r'.message
    requires StoredOptional(r'.photoUrl) && StoredOptional(r'.quote)
    requires r'.scanCount <= IntMax
    ensures WellFormedRow(r')
  {
  }

  lemma SetContentKeepsInvariant(t: Table, id: string, message: string, photoUrl: Option<string>,
                                 quote: Option<string>, now: Timestamp)
    requires TableInvariant(t)
    requires message != [] && Trim(message) == message
    requires StoredOptional(photoUrl) && StoredOptional(quote)
    ensures TableInvariant(SetContent(t, id, message, photoUrl, quote, now))
  {
    var t' := SetContent(t, id, message, photoUrl, quote, now);
    if id in t {
      RowEditWellFormed(t[id], t'[id]);
    }
    IdentitiesKeptKeepInvariant(t, t');
  }

  lemma IncrementScanKeepsInvariant(t: Table, id: string, now: Timestamp)
    requires TableInvariant(t)
    requires id in t ==> t[id].scanCount < IntMax
    ensures TableInvariant(IncrementScan(t, id, now))
  {
    var t' := IncrementScan(t, id, now);
    if id in t {
      RowEditWellFormed(t[id], t'[id]);
    }
    IdentitiesKeptKeepInvariant(t, t');
  }

  lemma DeleteRowKeepsInvariant(t: Table, id: string)
    requires TableInvariant(t)
    ensures TableInvariant(DeleteRow(t, id))
  {
  }

  /** The columns both read handlers select: everything but `edit_key` and
      `updated_at`. */
  datatype Projection = Projection(
    id: string,
    message: string,
    theme: Theme,
    photoUrl: Option<string>,
    quote: Option<string>,
    scanCount: nat,
    createdAt: Timestamp)

  function Project(r: Row): (p: Projection)
    ensures p.id == r.id && p.message == r.message && p.theme == r.theme
    ensures p.photoUrl == r.photoUrl && p.quote == r.quote
    ensures p.scanCount == r.scanCount && p.createdAt == r.createdAt
  {
    Projection(r.id, r.message, r.theme, r.photoUrl, r.quote, r.scanCount, r.createdAt)
  }

  /** The row the admin listing selects per message. */
  datatype Summary = Summary(
    id: string,
    messagePreview: string,
    theme: Theme,
    scanCount: nat,
    createdAt: Timestamp)

  /** `LEFT(message, 50)`. */
  const PreviewLength: nat := 50

  function Preview(message: string): (p: string)
    ensures |p| == Min(PreviewLength, |message|)
    ensures p <= message
  {
    message[..Min(PreviewLength, |message|)]
  }

  function Summarize(r: Row): (s: Summary)
    ensures s.id == r.id && s.theme == r.theme && s.scanCount == r.scanCount && s.createdAt == r.createdAt
    ensures s.messagePreview <= r.message && |s.messagePreview| == Min(PreviewLength, |r.message|)
  {
    Summary(r.id, Preview(r.message), r.theme, r.scanCount, r.createdAt)
  }

  /** Neither read projection depends on the edit key or on `updated_at`. */
  lemma ProjectionsHideSecrets(r: Row, editKey: string, updatedAt: Timestamp)
    ensures Project(r.(editKey := editKey, updatedAt := updatedAt)) == Project(r)
    ensures Summarize(r.(editKey := editKey, updatedAt := updatedAt)) == Summarize(r)
  {
  }

  /** Two tables that hold the same rows except, possibly, for their edit
      keys: no read may tell them apart. */
  predicate SameButEditKeys(t1: Table, t2: Table)
  {
    && t1.Keys == t2.Keys
    && forall k | k in t1 :: t2[k] == t1[k].(editKey := t2[k].editKey)
  }
}

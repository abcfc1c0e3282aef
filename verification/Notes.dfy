/**
 Notes and their offset paging (internal/storage/notes/sqlite.go, discord-webhook/server.go).
 */
module Notes {
  import opened Wrappers
  import opened Text
  import opened Instants
  import opened Sorting

  const MAX_RUNES := 10_000
  const MAX_PAGE_SIZE := 100
  const DEFAULT_LIMIT := 50
  const MAX_OFFSET := 1_000_000

  datatype Note = Note(id: int, content: string, createdAt: Instant, updatedAt: Instant)

  datatype Error = NotFound | Invalid | Unreadable | StatementFailed

  predicate ValidContent(content: string) {
    !IsBlank(content) && |content| <= MAX_RUNES
  }

  predicate ReadableNote(note: Note) {
    FourDigitYear(note.createdAt) && FourDigitYear(note.updatedAt)
  }

  type Rows = map<int, Note>

  /** The rows with ids 1 to n, in table order. */
  function AllNotes(rows: Rows, n: nat): seq<Note> {
    if n == 0 then [] else AllNotes(rows, n - 1) + (if n in rows then [rows[n]] else [])
  }

  /** ORDER BY updated_at DESC, id DESC, on the stored texts. */
  predicate Newer(a: Note, b: Note) {
    var x, y := FormatTime(a.updatedAt), FormatTime(b.updatedAt);
    Precedes(y, x) || (x == y && b.id < a.id)
  }

  /** The whole table as the list view orders it. */
  function Listing(rows: Rows, n: nat): seq<Note> {
    Sort(AllNotes(rows, n), Newer)
  }

  /** LIMIT limit OFFSET offset */
  function Slice<T>(s: seq<T>, offset: nat, limit: nat): (r: seq<T>)
    ensures |r| <= limit && forall i :: 0 <= i < |r| ==> offset + i < |s| && r[i] == s[offset + i]
  {
    if offset >= |s| then [] else if offset + limit >= |s| then s[offset..] else s[offset..offset + limit]
  }

  class NoteStore {
    var rows: Rows
    var sequence: nat

    /** Every row sits under its own id, and ids were handed out by the counter. */
    ghost predicate Valid()
      reads this
    {
      forall id :: id in rows ==> 1 <= id <= sequence && rows[id].id == id && ValidContent(rows[id].content)
    }

    constructor ()
      ensures Valid() && rows == map[] && sequence == 0
    {
      rows, sequence := map[], 0;
    }

    method Create(content: string, now: Instant, works: bool) returns (r: Result<Note, Error>)
      requires Valid()
      modifies this
      ensures Valid()
      ensures r == if IsBlank(content) || |content| > 10_000 then Err(Invalid)
                   else if !works then Err(StatementFailed)
                   else Ok(Note(old(sequence) + 1, content, now, now))
      ensures if r.Ok? then r.value.id !in old(rows) && rows == old(rows)[r.value.id := r.value]
              && sequence == r.value.id
              else rows == old(rows) && sequence == old(sequence)
    {
      if !ValidContent(content) {
        return Err(Invalid);
      }
      if !works {
        return Err(StatementFailed);
      }
      sequence := sequence + 1;
      rows := rows[sequence := Note(sequence, content, now, now)];
      r := Ok(rows[sequence]);
    }

    /** List: one slice of the listing; a page limit of 100 leaves room for the handler's probe of one more. */
    method List(offset: int, limit: int, works: bool) returns (r: Result<seq<Note>, Error>)
      ensures r == if offset < 0 || limit < 1 || limit > 101 then Err(Invalid)
                   else if !works then Err(StatementFailed)
                   else var page := Slice(Listing(rows, sequence), offset, limit);
                        if forall i :: 0 <= i < |page| ==> ReadableNote(page[i]) then Ok(page) else Err(Unreadable)
    {
      hide Listing, ReadableNote;
      if offset < 0 || limit < 1 || limit > MAX_PAGE_SIZE + 1 {
        return Err(Invalid);
      }
      if !works {
        return Err(StatementFailed);
      }
      var page := Slice(Listing(rows, sequence), offset, limit);
      var notes := [];
      var i := 0;
      while i < |page|
        invariant 0 <= i <= |page| && notes == page[..i]
        invariant forall j :: 0 <= j < i ==> ReadableNote(page[j])
      {
        if !ReadableNote(page[i]) {
          return Err(Unreadable);
        }
        notes := notes + [page[i]];
        i := i + 1;
      }
      assert notes == page;
      r := Ok(notes);
    }

    /** Update: the row is written by one statement and read back by another, outside any transaction. */
    method Update(id: int, content: string, now: Instant, works: bool, readsBack: bool) returns (r: Result<Note, Error>)
      requires Valid()
      modifies this
      ensures Valid() && sequence == old(sequence)
      ensures if id <= 0 || IsBlank(content) || |content| > 10_000 then r == Err(Invalid) && rows == old(rows)
              else if !works then r == Err(StatementFailed) && rows == old(rows)
              else if id !in old(rows) then r == Err(NotFound) && rows == old(rows)
              else && rows == old(rows)[id := old(rows)[id].(content := content, updatedAt := now)]
                   && r == if !readsBack then Err(StatementFailed)
                           else if ReadableNote(rows[id]) then Ok(rows[id]) else Err(Unreadable)
    {
      if id <= 0 || !ValidContent(content) {
        return Err(Invalid);
      }
      if !works {
        return Err(StatementFailed);
      }
      if id !in rows {
        return Err(NotFound);
      }
      rows := rows[id := rows[id].(content := content, updatedAt := now)];
      if !readsBack {
        return Err(StatementFailed);
      }
      r := if ReadableNote(rows[id]) then Ok(rows[id]) else Err(Unreadable);
    }

    method Delete(id: int, works: bool) returns (r: Result<Note, Error>)
      requires Valid()
      modifies this
      ensures Valid() && sequence == old(sequence)
      ensures r == if id <= 0 then Err(Invalid) else if !works then Err(StatementFailed)
                   else if id !in old(rows) then Err(NotFound)
                   else if !ReadableNote(old(rows)[id]) then Err(Unreadable) else Ok(old(rows)[id])
      ensures rows == if r.Ok? then old(rows) - {id} else old(rows)
    {
      if id <= 0 {
        return Err(Invalid);
      }
      if !works {
        return Err(StatementFailed);
      }
      if id !in rows {
        return Err(NotFound);
      }
      if !ReadableNote(rows[id]) {
        return Err(Unreadable);
      }
      r := Ok(rows[id]);
      rows := rows - {id};
    }
  }

  // ----- the order -----

  lemma NewerIsStrict()
    ensures StrictOrder(Newer)
  {
    hide FormatTime, Precedes;
    forall a, b
      ensures !(Newer(a, b) && Newer(b, a))
    {
      PrecedesTotal(FormatTime(a.updatedAt), FormatTime(b.updatedAt));
    }
    forall a, b, c | Newer(a, b) && Newer(b, c)
      ensures Newer(a, c)
    {
      var x, y, z := FormatTime(a.updatedAt), FormatTime(b.updatedAt), FormatTime(c.updatedAt);
      if Precedes(y, x) && Precedes(z, y) {
        PrecedesTransitive(z, y, x);
      }
    }
  }

  lemma {:induction false} TableOrder(rows: Rows, n: nat)
    requires forall id :: id in rows ==> rows[id].id == id
    ensures forall i :: 0 <= i < |AllNotes(rows, n)| ==>
              var note := AllNotes(rows, n)[i]; 1 <= note.id <= n && note.id in rows && rows[note.id] == note
    ensures forall i, j :: 0 <= i < j < |AllNotes(rows, n)| ==> AllNotes(rows, n)[i].id < AllNotes(rows, n)[j].id
    ensures forall id :: 1 <= id <= n && id in rows ==> rows[id] in AllNotes(rows, n)
    decreases n
  {
    if n > 0 {
      TableOrder(rows, n - 1);
    }
  }

  /** The listing holds every note exactly once, newest first by (updated_at, id). */
  lemma ListingHoldsEveryNoteOnce(rows: Rows, n: nat)
    requires forall id :: id in rows ==> 1 <= id <= n && rows[id].id == id
    ensures var list := Listing(rows, n);
            && (forall i, j :: 0 <= i < j < |list| ==>
                  var x, y := FormatTime(list[i].updatedAt), FormatTime(list[j].updatedAt);
                  Precedes(y, x) || (x == y && list[i].id > list[j].id))
            && (forall note :: note in list <==> note.id in rows && rows[note.id] == note)
            && (forall i, j :: 0 <= i < j < |list| ==> list[i].id != list[j].id)
  {
    hide Sort, AllNotes, FormatTime, Precedes;
    var s, list := AllNotes(rows, n), Listing(rows, n);
    TableOrder(rows, n);
    NewerIsStrict();
    NotesCompare(s);
    SortOrders(s, Newer);
    forall note
      ensures note in list <==> note in s
    {
      assert note in list <==> note in multiset(list);
      assert note in s <==> note in multiset(s);
    }
    forall i, j | 0 <= i < j < |list|
      ensures list[i].id != list[j].id
    {
      assert list[i] in list && list[j] in list;
      assert Newer(list[i], list[j]);
      assert !Newer(list[i], list[i]) by {
        PrecedesTotal(FormatTime(list[i].updatedAt), FormatTime(list[i].updatedAt));
      }
    }
  }

  lemma NotesCompare(s: seq<Note>)
    requires forall i, j :: 0 <= i < j < |s| ==> s[i].id < s[j].id
    ensures Comparable(s, Newer)
  {
    hide FormatTime, Precedes;
    forall i, j | 0 <= i < |s| && 0 <= j < |s| && i != j
      ensures Newer(s[i], s[j]) || Newer(s[j], s[i])
    {
      PrecedesTotal(FormatTime(s[i].updatedAt), FormatTime(s[j].updatedAt));
    }
  }

  // ----- paging -----

  /** A query parameter: missing, not an integer, or an integer. */
  datatype Param = Missing | NotANumber | Number(n: int)

  datatype Page = Page(notes: seq<Note>, hasMore: bool, nextOffset: nat)

  datatype Reply = BadRequest | InternalError | Ok200(page: Page)

  function OffsetOf(p: Param): Option<int> {
    match p
    case Missing => Some(0)
    case NotANumber => None
    case Number(n) => if 0 <= n <= MAX_OFFSET then Some(n) else None
  }

  /** The page of list at offset. */
  function PageAt(list: seq<Note>, offset: nat, limit: nat): Page {
    var more := offset + limit < |list|;
    Page(Slice(list, offset, limit), more, if more then offset + limit else 0)
  }

  /** handleListNotes: it lists one note more than the page to learn whether there are more. */
  method HandleListNotes(store: NoteStore, limitParam: Param, offsetParam: Param, works: bool) returns (r: Reply)
    ensures r == BadRequest <==>
            || limitParam == NotANumber || (limitParam.Number? && (limitParam.n < 1 || limitParam.n > 100))
            || offsetParam == NotANumber || (offsetParam.Number? && (offsetParam.n < 0 || offsetParam.n > 1_000_000))
    ensures r != BadRequest ==>
              var list := Listing(store.rows, store.sequence);
              var limit, offset := if limitParam == Missing then 50 else limitParam.n,
                                   if offsetParam == Missing then 0 else offsetParam.n;
              && (r.Ok200? ==>
                    && r.page.notes == Slice(list, offset, limit)
                    && (r.page.hasMore <==> offset + limit < |list|)
                    && r.page.nextOffset == if r.page.hasMore then offset + limit else 0)
              && (works && (forall i :: 0 <= i < |list| ==> ReadableNote(list[i])) ==> r != InternalError)
  {
    hide Listing;
    var limit := DEFAULT_LIMIT;
    if limitParam != Missing {
      if limitParam == NotANumber || limitParam.n < 1 || limitParam.n > MAX_PAGE_SIZE {
        return BadRequest;
      }
      limit := limitParam.n;
    }
    var offset := 0;
    if offsetParam != Missing {
      if offsetParam == NotANumber || offsetParam.n < 0 || offsetParam.n > MAX_OFFSET {
        return BadRequest;
      }
      offset := offsetParam.n;
    }
    var listed := store.List(offset, limit + 1, works);
    if listed.Err? {
      return InternalError;
    }
    var notes := listed.value;
    var hasMore := |notes| > limit;
    if hasMore {
      notes := notes[..limit];
    }
    var nextOffset := 0;
    if hasMore {
      nextOffset := offset + |notes|;
    }
    r := Ok200(Page(notes, hasMore, nextOffset));
  }

  /** What a client collects that follows NextOffset from offset; None when a request is refused. */
  function Follow(list: seq<Note>, offset: nat, limit: nat): Option<seq<Note>>
    requires limit > 0
    decreases |list| - offset
  {
    if OffsetOf(Number(offset)).None? then None else
      var page := PageAt(list, offset, limit);
      if !page.hasMore then Some(page.notes) else
        match Follow(list, page.nextOffset, limit)
        case None => None
        case Some(rest) => Some(page.notes + rest)
  }

  /** The last multiple of limit that the handler accepts as an offset. */
  function LastOffset(limit: nat): nat
    requires limit > 0
  {
    MAX_OFFSET / limit * limit
  }

  lemma {:induction false} FollowFrom(list: seq<Note>, j: nat, offset: nat, limit: nat)
    requires 1 <= limit <= MAX_PAGE_SIZE && offset == j * limit && offset <= MAX_OFFSET && offset <= |list|
    ensures Follow(list, offset, limit) == if |list| <= LastOffset(limit) + limit then Some(list[offset..]) else None
    decreases |list| - offset
  {
    hide LastOffset;
    LastPage(j, limit);
    var next := offset + limit;
    if next < |list| && next <= MAX_OFFSET {
      assert (j + 1) * limit == next;
      FollowFrom(list, j + 1, next, limit);
      assert list[offset..] == list[offset..next] + list[next..];
    }
  }

  lemma LastPage(j: nat, limit: nat)
    requires 1 <= limit && j * limit <= MAX_OFFSET
    ensures j * limit <= LastOffset(limit)
    ensures MAX_OFFSET < j * limit + limit ==> j * limit == LastOffset(limit)
  {
    var q := MAX_OFFSET / limit;
    assert q * limit <= MAX_OFFSET < q * limit + limit;
    Multiples(j, q, limit);
    Multiples(q, j, limit);
  }

  lemma {:induction false} Multiples(a: nat, b: nat, c: nat)
    ensures a < b ==> a * c + c <= b * c
    decreases b
  {
    if a < b {
      Multiples(a, b - 1, c);
    }
  }

  /**
   Following NextOffset from 0 ends and yields every note once in order, if and only if the notes fit the
   offsets the handler accepts; up to 1,000,000 notes always do.
   */
  lemma PagesCoverTheListing(list: seq<Note>, limit: nat)
    requires 1 <= limit <= 100
    ensures Follow(list, 0, limit) == Some(list) <==> |list| <= LastOffset(limit) + limit
    ensures |list| <= 1_000_000 ==> Follow(list, 0, limit) == Some(list)
  {
    hide Follow;
    FollowFrom(list, 0, 0, limit);
    assert MAX_OFFSET < LastOffset(limit) + limit;
    assert list[0..] == list;
  }
}

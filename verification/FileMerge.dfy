/** Merging a page of files into the list on screen: `mergeFiles` of
    src/components/ClientFilesPanel.tsx. An id stands for its rank under `localeCompare`,
    which orders distinct ids totally; a creation date for its instant. */
module FileMerge {

  datatype FileItem = FileItem(id: int, createdAt: int, status: string)

  /** The comparison of the sort: by date, then by id. */
  predicate Precedes(a: FileItem, b: FileItem) {
    a.createdAt < b.createdAt || (a.createdAt == b.createdAt && a.id < b.id)
  }

  predicate Sorted(s: seq<FileItem>) {
    forall i, j | 0 <= i < j < |s| :: Precedes(s[i], s[j])
  }

  /** `new Map(files.map((file) => [file.id, file]))`: the last file of an id wins. */
  function ById(files: seq<FileItem>): map<int, FileItem> {
    if files == [] then map[] else ById(files[..|files| - 1])[files[|files| - 1].id := files[|files| - 1]]
  }

  /** The list shows exactly the files of the map, in order; so no id twice. */
  ghost predicate Lists(s: seq<FileItem>, m: map<int, FileItem>) {
    Sorted(s) && forall f :: f in s <==> f.id in m && m[f.id] == f
  }

  // ---- The specification ----

  function Insert(s: seq<FileItem>, f: FileItem): seq<FileItem> {
    if s == [] || Precedes(f, s[0]) then [f] + s else [s[0]] + Insert(s[1..], f)
  }

  function Without(s: seq<FileItem>, id: int): seq<FileItem> {
    if s == [] then [] else if s[0].id == id then Without(s[1..], id) else [s[0]] + Without(s[1..], id)
  }

  /** Each file in turn replaces the one of its id. */
  function Upsert(s: seq<FileItem>, files: seq<FileItem>): seq<FileItem> {
    if files == [] then s
    else
      var last := files[|files| - 1];
      Insert(Without(Upsert(s, files[..|files| - 1]), last.id), last)
  }

  function Merge(current: seq<FileItem>, incoming: seq<FileItem>): seq<FileItem> {
    Upsert([], current + incoming)
  }

  // ---- The algorithm ----

  /** A JavaScript Map: its entries, and its keys in the order they were first set. */
  class FileMap {
    var keys: seq<int>
    var entries: map<int, FileItem>

    ghost predicate Valid()
      reads this
    {
      && (forall i, j | 0 <= i < j < |keys| :: keys[i] != keys[j])
      && (forall id :: id in entries <==> id in keys)
    }

    constructor ()
      ensures Valid() && entries == map[]
    {
      keys, entries := [], map[];
    }

    method Set(f: FileItem)
      requires Valid()
      modifies this
      ensures Valid() && entries == old(entries)[f.id := f]
    {
      if f.id !in entries {
        keys := keys + [f.id];
      }
      entries := entries[f.id := f];
    }

    /** `[...byId.values()].sort(...)`, one value at a time into its place. */
    method SortedValues() returns (sorted: seq<FileItem>)
      requires Valid() && forall id | id in entries :: entries[id].id == id
      ensures Lists(sorted, entries)
    {
      sorted := [];
      ghost var done: map<int, FileItem> := map[];
      for i := 0 to |keys|
        invariant forall id :: id in done <==> id in keys[..i]
        invariant forall id | id in done :: done[id] == entries[id]
        invariant Lists(sorted, done)
      {
        var id := keys[i];
        assert id !in keys[..i];
        InsertLists(sorted, done, entries[id]);
        sorted := Insert(sorted, entries[id]);
        done := done[id := entries[id]];
        assert keys[..i + 1] == keys[..i] + [id];
      }
      assert keys[..|keys|] == keys;
      assert forall id :: id in done <==> id in entries;
    }
  }

  method MergeFiles(current: seq<FileItem>, incoming: seq<FileItem>) returns (merged: seq<FileItem>)
    ensures merged == Merge(current, incoming)
  {
    var byId := new FileMap();
    SetAll(byId, [], current);
    assert [] + current == current;
    SetAll(byId, current, incoming);
    ByIdKeyed(current + incoming);
    merged := byId.SortedValues();
    UpsertLists(current + incoming);
    ListsUnique(merged, Merge(current, incoming), byId.entries);
  }

  /** Sets each file in turn in a map that already holds some. */
  method SetAll(byId: FileMap, ghost held: seq<FileItem>, files: seq<FileItem>)
    requires byId.Valid() && byId.entries == ById(held)
    modifies byId
    ensures byId.Valid() && byId.entries == ById(held + files)
  {
    assert held + files[..0] == held;
    for i := 0 to |files|
      invariant byId.Valid() && byId.entries == ById(held + files[..i])
    {
      byId.Set(files[i]);
      assert (held + files[..i + 1])[..|held| + i] == held + files[..i];
    }
    assert files[..|files|] == files;
  }

  lemma {:induction false} ByIdKeyed(files: seq<FileItem>)
    ensures forall id | id in ById(files) :: ById(files)[id].id == id
  {
    if files != [] {
      ByIdKeyed(files[..|files| - 1]);
    }
  }

  // ---- Sorted lists and maps ----

  lemma {:induction false} InsertSorted(s: seq<FileItem>, f: FileItem)
    requires Sorted(s) && forall g | g in s :: g.id != f.id
    ensures Sorted(Insert(s, f)) && forall g :: g in Insert(s, f) <==> g == f || g in s
  {
    if s != [] && !Precedes(f, s[0]) {
      InsertSorted(s[1..], f);
      assert forall g | g in Insert(s[1..], f) :: Precedes(s[0], g);
    }
  }

  lemma InsertLists(s: seq<FileItem>, m: map<int, FileItem>, f: FileItem)
    requires Lists(s, m) && f.id !in m
    ensures Lists(Insert(s, f), m[f.id := f])
  {
    InsertSorted(s, f);
  }

  lemma {:induction false} WithoutLists(s: seq<FileItem>, id: int)
    requires Sorted(s)
    ensures Sorted(Without(s, id)) && forall g :: g in Without(s, id) <==> g in s && g.id != id
  {
    if s != [] {
      WithoutLists(s[1..], id);
    }
  }

  /** Upserting is what the map does: one file an id, the last one. */
  lemma {:induction false} UpsertLists(files: seq<FileItem>)
    ensures Lists(Upsert([], files), ById(files))
  {
    if files != [] {
      var front, last := files[..|files| - 1], files[|files| - 1];
      UpsertLists(front);
      var s := Upsert([], front);
      WithoutLists(s, last.id);
      InsertLists(Without(s, last.id), ById(front) - {last.id}, last);
      assert (ById(front) - {last.id})[last.id := last] == ById(files);
    }
  }

  /** A map of files has one sorted list. */
  lemma {:induction false} ListsUnique(s: seq<FileItem>, t: seq<FileItem>, m: map<int, FileItem>)
    requires Lists(s, m) && Lists(t, m)
    ensures s == t
  {
    EmptyTogether(s, m);
    EmptyTogether(t, m);
    if s != [] {
      assert t[0] in s && s[0] in t;
      assert s[0] == t[0];
      RestLists(s, m);
      RestLists(t, m);
      ListsUnique(s[1..], t[1..], m - {s[0].id});
      assert s == [s[0]] + s[1..] && t == [t[0]] + t[1..];
    }
  }

  lemma EmptyTogether(s: seq<FileItem>, m: map<int, FileItem>)
    requires Lists(s, m)
    ensures s == [] ==> forall f: FileItem :: f.id in m ==> m[f.id] != f
    ensures s != [] ==> s[0].id in m && m[s[0].id] == s[0]
  {
    assert s != [] ==> s[0] in s;
  }

  lemma RestLists(s: seq<FileItem>, m: map<int, FileItem>)
    requires Lists(s, m) && s != []
    ensures Lists(s[1..], m - {s[0].id})
  {
    assert s == [s[0]] + s[1..];
    forall f ensures f in s[1..] <==> f.id in m - {s[0].id} && m[f.id] == f {
      if f in s[1..] {
        assert Precedes(s[0], f);
        assert f in s && s[0] in s;
      }
    }
  }

  lemma {:induction false} ByIdConcat(a: seq<FileItem>, b: seq<FileItem>)
    ensures ById(a + b) == ById(a) + ById(b)
  {
    if b == [] {
      assert a + b == a;
    } else {
      ByIdConcat(a, b[..|b| - 1]);
      assert (a + b)[..|a + b| - 1] == a + b[..|b| - 1];
    }
  }

  /** The files of a listed map, read back as a map, are that map. */
  lemma ByIdOfListed(s: seq<FileItem>, m: map<int, FileItem>)
    requires Lists(s, m) && forall id | id in m :: m[id].id == id
    ensures ById(s) == m
  {
    ByIdMembers(s);
    forall id | id in m ensures id in ById(s) && ById(s)[id] == m[id] {
      assert m[id] in s;
    }
    forall id | id in ById(s) ensures id in m {
      assert ById(s)[id] in s;
    }
  }

  lemma {:induction false} ByIdMembers(s: seq<FileItem>)
    ensures forall f | f in s :: f.id in ById(s)
    ensures forall id | id in ById(s) :: ById(s)[id] in s && ById(s)[id].id == id
  {
    if s != [] {
      ByIdMembers(s[..|s| - 1]);
      assert s == s[..|s| - 1] + [s[|s| - 1]];
    }
  }

  // ---- What merging promises ----

  /** The merged list holds exactly the files of both, the incoming one where both have an id,
      each id once, in strict order of date and id. */
  lemma {:induction false} MergeLists(current: seq<FileItem>, incoming: seq<FileItem>)
    ensures Lists(Merge(current, incoming), ById(current) + ById(incoming))
    ensures ById(Merge(current, incoming)) == ById(current) + ById(incoming)
    ensures var s := Merge(current, incoming);
            forall i, j | 0 <= i < j < |s| ::
              s[i].createdAt <= s[j].createdAt && (s[i].createdAt == s[j].createdAt ==> s[i].id < s[j].id)
  {
    UpsertLists(current + incoming);
    ByIdConcat(current, incoming);
    ByIdKeyed(current + incoming);
    ByIdOfListed(Merge(current, incoming), ById(current + incoming));
  }

  /** The same, for lists whose maps are known. */
  lemma MergeListsMaps(s: seq<FileItem>, t: seq<FileItem>, m: map<int, FileItem>, n: map<int, FileItem>)
    requires ById(s) == m && ById(t) == n
    ensures Lists(Merge(s, t), m + n) && ById(Merge(s, t)) == m + n
  {
    MergeLists(s, t);
  }

  lemma MapsAssociate(m: map<int, FileItem>, n: map<int, FileItem>, o: map<int, FileItem>)
    ensures m + n + o == m + (n + o)
  {
  }

  lemma {:induction false} MergeIdempotent(current: seq<FileItem>, incoming: seq<FileItem>)
    ensures Merge(Merge(current, incoming), incoming) == Merge(current, incoming)
  {
    var once := Merge(current, incoming);
    MergeLists(current, incoming);
    MergeLists(once, incoming);
    assert ById(once) + ById(incoming) == ById(once);
    ListsUnique(Merge(once, incoming), once, ById(once));
  }

  lemma {:induction false} MergeAssociative(a: seq<FileItem>, b: seq<FileItem>, c: seq<FileItem>)
    ensures Merge(Merge(a, b), c) == Merge(a, Merge(b, c))
  {
    var m, n, o := ById(a), ById(b), ById(c);
    MergeListsMaps(a, b, m, n);
    MergeListsMaps(Merge(a, b), c, m + n, o);
    MergeListsMaps(b, c, n, o);
    MergeListsMaps(a, Merge(b, c), m, n + o);
    MapsAssociate(m, n, o);
    ListsUnique(Merge(Merge(a, b), c), Merge(a, Merge(b, c)), m + n + o);
  }

  function Concat(pages: seq<seq<FileItem>>): seq<FileItem> {
    if pages == [] then [] else Concat(pages[..|pages| - 1]) + pages[|pages| - 1]
  }

  /** The list after merging each page as it arrives. */
  function MergePages(current: seq<FileItem>, pages: seq<seq<FileItem>>): seq<FileItem> {
    if pages == [] then current else Merge(MergePages(current, pages[..|pages| - 1]), pages[|pages| - 1])
  }

  /** Merging pages one at a time is merging them all at once. */
  lemma {:induction false} PagesMergeAtOnce(current: seq<FileItem>, pages: seq<seq<FileItem>>)
    requires pages != []
    ensures MergePages(current, pages) == Merge(current, Concat(pages))
  {
    var front, last := pages[..|pages| - 1], pages[|pages| - 1];
    if front == [] {
      assert Concat(front) + last == last;
    } else {
      var all := Concat(front);
      var m, n, o := ById(current), ById(all), ById(last);
      PagesMergeAtOnce(current, front);
      MergeListsMaps(current, all, m, n);
      MergeListsMaps(Merge(current, all), last, m + n, o);
      ByIdConcat(all, last);
      MergeListsMaps(current, all + last, m, n + o);
      MapsAssociate(m, n, o);
      ListsUnique(Merge(Merge(current, all), last), Merge(current, all + last), m + n + o);
    }
  }
}

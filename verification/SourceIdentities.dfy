/**
 Versioned identities stored in NetBox custom fields: how one record is matched,
 and how a synchroniser merges its own identity without touching foreign ones.
 */
module SourceIdentities {
  import opened Wrappers
  import opened Texts

  /** A v2 identity; `externalId` is the provider's own key inside the namespace. */
  datatype SourceIdentity = SourceIdentity(source: string, inst: string, kind: string, externalId: string)

  /** One element of the JSON list `sync_identities`. */
  datatype Entry =
    | V2(id: SourceIdentity)
    | BrokenV2                                              // schema v2 with missing or blank fields
    | Legacy(source: string, sourceId: string, text: string) // schema v1
    | ForeignDict(text: string)
    | NotDict

  datatype IdentityField = NoIdentities | NotList | Entries(list: seq<Entry>)

  const NO_MATCH := 0
  const LEGACY_MATCH := 1
  const V2_MATCH := 2

  /** Scan for `id`; `None` is the `ValueError` of a broken v2 record met on the way. */
  function Scan(list: seq<Entry>, id: SourceIdentity): Option<bool> {
    if list == [] then Some(false)
    else if list[0] == BrokenV2 then None
    else if list[0] == V2(id) then Some(true)
    else Scan(list[1..], id)
  }

  predicate HasLegacy(list: seq<Entry>, source: string, wanted: string) {
    exists e :: e in list && e.Legacy? && e.source == source && e.sourceId == wanted
  }

  /** `source_identity_match_rank`: v2 first, v1 only for the explicit legacy owner. */
  function MatchRank(field: IdentityField, id: SourceIdentity, wanted: string, legacyOwner: bool): Option<nat> {
    if !field.Entries? then Some(NO_MATCH)
    else match Scan(field.list, id)
      case None => None
      case Some(true) => Some(V2_MATCH)
      case Some(false) =>
        if legacyOwner && HasLegacy(field.list, id.source, wanted) then Some(LEGACY_MATCH) else Some(NO_MATCH)
  }

  /** A v2 record wins over the v1 record of the explicit legacy owner. */
  lemma RankMeans(field: IdentityField, id: SourceIdentity, wanted: string, legacyOwner: bool)
    requires MatchRank(field, id, wanted, legacyOwner).Some?
    ensures MatchRank(field, id, wanted, legacyOwner).value ==
              if field.Entries? && V2(id) in field.list then V2_MATCH
              else if field.Entries? && legacyOwner
                      && exists e :: e in field.list && e.Legacy? && e.source == id.source && e.sourceId == wanted
              then LEGACY_MATCH else NO_MATCH
  {
    if field.Entries? {
      ScanIs(field.list, id);
    }
  }

  lemma {:induction false} ScanIs(list: seq<Entry>, id: SourceIdentity)
    requires Scan(list, id).Some?
    ensures Scan(list, id).value <==> V2(id) in list
    ensures !Scan(list, id).value ==> BrokenV2 !in list
  {
    if list != [] && list[0] != V2(id) {
      ScanIs(list[1..], id);
      assert forall e :: e in list <==> e == list[0] || e in list[1..];
    }
  }

  /** A broken v2 entry stands before any entry of the identity. */
  predicate BrokenFirst(list: seq<Entry>, id: SourceIdentity) {
    exists i :: 0 <= i < |list| && list[i] == BrokenV2 && forall j :: 0 <= j < i ==> list[j] != V2(id)
  }

  lemma {:induction false} ScanFails(list: seq<Entry>, id: SourceIdentity)
    ensures Scan(list, id).None? <==> BrokenFirst(list, id)
  {
    if list != [] {
      var rest := list[1..];
      ScanFails(rest, id);
      assert forall i :: 0 <= i < |rest| ==> rest[i] == list[i + 1];
      if list[0] != BrokenV2 && list[0] != V2(id) && Scan(rest, id).None? {
        var i :| 0 <= i < |rest| && rest[i] == BrokenV2 && forall j :: 0 <= j < i ==> rest[j] != V2(id);
        assert forall j :: 0 < j < i + 1 ==> list[j] == rest[j - 1];
        assert list[i + 1] == BrokenV2 && forall j :: 0 <= j < i + 1 ==> list[j] != V2(id);
      }
    }
  }

  predicate SameNamespace(e: Entry, id: SourceIdentity) {
    e.V2? && e.id.source == id.source && e.id.inst == id.inst && e.id.kind == id.kind
  }

  predicate Mergeable(list: seq<Entry>) {
    NotDict !in list && BrokenV2 !in list
  }

  /** Drop every v2 entry of the namespace of `id`. */
  function Foreign(list: seq<Entry>, id: SourceIdentity): (r: seq<Entry>)
    ensures forall e :: e in r <==> e in list && !SameNamespace(e, id)
  {
    if list == [] then []
    else
      var last := list[|list| - 1];
      assert forall e :: e in list <==> e in list[..|list| - 1] || e == last;
      Foreign(list[..|list| - 1], id) + (if SameNamespace(last, id) then [] else [last])
  }

  /** The text a stored record is sorted by. */
  function SortText(e: Entry): string {
    match e
    case V2(id) => "external_id=" + id.externalId + ",instance=" + id.inst + ",kind=" + id.kind + ",type=" + id.source
    case Legacy(_, _, text) => text
    case ForeignDict(text) => text
    case _ => ""
  }

  predicate EntryLe(a: Entry, b: Entry) {
    TextLe(SortText(a), SortText(b))
  }

  /** Insert after every element that does not exceed `x`, as a stable sort does with its last element. */
  function InsertAfter(x: Entry, s: seq<Entry>): (r: seq<Entry>)
    ensures forall e :: e in r <==> e == x || e in s
    ensures |r| == |s| + 1
    ensures s != [] ==> r[|s|] == x || r[|s|] == s[|s| - 1]
    ensures s == [] ==> r == [x]
  {
    if s == [] then [x]
    else
      var last := s[|s| - 1];
      assert forall e :: e in s <==> e in s[..|s| - 1] || e == last;
      if EntryLe(last, x) then s + [x] else InsertAfter(x, s[..|s| - 1]) + [last]
  }

  function SortEntries(s: seq<Entry>): (r: seq<Entry>)
    ensures forall e :: e in r <==> e in s
    ensures |r| == |s|
  {
    if s == [] then []
    else
      assert forall e :: e in s <==> e in s[..|s| - 1] || e == s[|s| - 1];
      InsertAfter(s[|s| - 1], SortEntries(s[..|s| - 1]))
  }

  predicate SortedEntries(s: seq<Entry>) {
    forall i :: 0 < i < |s| ==> EntryLe(s[i - 1], s[i])
  }

  lemma {:induction false} InsertAfterSorted(x: Entry, s: seq<Entry>)
    requires SortedEntries(s)
    ensures SortedEntries(InsertAfter(x, s))
  {
    if s != [] {
      var last := s[|s| - 1];
      if !EntryLe(last, x) {
        TextLeTotal(SortText(last), SortText(x));
        var init := s[..|s| - 1];
        InsertAfterSorted(x, init);
        var r := InsertAfter(x, init);
        assert init != [] ==> EntryLe(init[|init| - 1], last);
      }
    }
  }

  lemma {:induction false} SortEntriesSorts(s: seq<Entry>)
    ensures SortedEntries(SortEntries(s))
  {
    if s != [] {
      SortEntriesSorts(s[..|s| - 1]);
      InsertAfterSorted(s[|s| - 1], SortEntries(s[..|s| - 1]));
    }
  }

  lemma {:induction false} SortOfSorted(s: seq<Entry>)
    requires SortedEntries(s)
    ensures SortEntries(s) == s
  {
    hide EntryLe, InsertAfter;
    if s != [] {
      var init, last := s[..|s| - 1], s[|s| - 1];
      SortOfSorted(init);
      InsertLast(last, init);
      assert s == init + [last];
    }
  }

  lemma InsertLast(x: Entry, s: seq<Entry>)
    requires s != [] ==> EntryLe(s[|s| - 1], x)
    ensures InsertAfter(x, s) == s + [x]
  {
    hide EntryLe;
  }

  lemma {:induction false} ForeignOfInsert(x: Entry, s: seq<Entry>, id: SourceIdentity)
    requires SameNamespace(x, id)
    ensures Foreign(InsertAfter(x, s), id) == Foreign(s, id)
  {
    var r := InsertAfter(x, s);
    if s == [] {
      assert r[..0] == [];
    } else if EntryLe(s[|s| - 1], x) {
      assert r[..|r| - 1] == s;
    } else {
      ForeignOfInsert(x, s[..|s| - 1], id);
      assert r[..|r| - 1] == InsertAfter(x, s[..|s| - 1]);
    }
  }

  lemma {:induction false} ForeignOfForeign(s: seq<Entry>, id: SourceIdentity)
    requires forall e :: e in s ==> !SameNamespace(e, id)
    ensures Foreign(s, id) == s
  {
    if s != [] {
      var init, last := s[..|s| - 1], s[|s| - 1];
      assert s == init + [last];
      assert !SameNamespace(last, id);
      ForeignOfForeign(init, id);
    }
  }

  /** `merge_source_identities`: foreign and legacy records stay, the namespace holds exactly `id`. */
  function MergeEntries(list: seq<Entry>, id: SourceIdentity): (r: seq<Entry>)
    ensures forall e :: e in r <==> e == V2(id) || (e in list && !SameNamespace(e, id))
  {
    SortEntries(Foreign(list, id) + [V2(id)])
  }

  lemma MergeShape(list: seq<Entry>, id: SourceIdentity)
    ensures MergeEntries(list, id) == InsertAfter(V2(id), SortEntries(Foreign(list, id)))
  {
  }

  /** Merging the same identity again changes nothing, not even the order. */
  lemma MergeIsIdempotent(list: seq<Entry>, id: SourceIdentity)
    ensures MergeEntries(MergeEntries(list, id), id) == MergeEntries(list, id)
  {
    var sorted := SortEntries(Foreign(list, id));
    MergeShape(list, id);
    ForeignOfInsert(V2(id), sorted, id);
    ForeignOfForeign(sorted, id);
    SortEntriesSorts(Foreign(list, id));
    SortOfSorted(sorted);
    MergeShape(MergeEntries(list, id), id);
  }

  lemma {:induction false} ScanOfClean(list: seq<Entry>, id: SourceIdentity)
    requires BrokenV2 !in list
    ensures Scan(list, id) == Some(V2(id) in list)
  {
    if list != [] {
      assert forall e :: e in list <==> e == list[0] || e in list[1..];
      ScanOfClean(list[1..], id);
    }
  }

  /** A scan that runs to the end has seen no broken record and no match. */
  lemma {:induction false} ScanToEnd(list: seq<Entry>, id: SourceIdentity)
    requires Scan(list, id) == Some(false)
    ensures BrokenV2 !in list && V2(id) !in list
  {
    if list != [] {
      assert forall e :: e in list <==> e == list[0] || e in list[1..];
      ScanToEnd(list[1..], id);
    }
  }
}

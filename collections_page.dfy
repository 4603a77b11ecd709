/** The search filter of the collections page, over its fixed list of rows. */
module CollectionsPage {
  import Text
  import Seqs

  datatype CollectionRow = CollectionRow(
    id: string, date: string, client: string, machines: int, amount: int, technician: string)

  /** The rows the page shows; the page keeps them in state without a setter. */
  const MOCK_COLLECTIONS: seq<CollectionRow> := [
    CollectionRow("R001", "2023-06-01", "Bar El Rincón", 3, 320, "Carlos Gómez"),
    CollectionRow("R002", "2023-06-02", "Cafetería Central", 2, 280, "María López"),
    CollectionRow("R003", "2023-06-05", "Restaurante Los Amigos", 1, 150, "Carlos Gómez"),
    CollectionRow("R004", "2023-06-07", "Pub La Noche", 4, 410, "María López"),
    CollectionRow("R005", "2023-06-10", "Cafetería Aroma", 2, 210, "Carlos Gómez")
  ]

  /** Whether the client, technician or id contains the term, ignoring case. */
  predicate RowMatches(term: string, row: CollectionRow) {
    Text.Contains(Text.Lower(row.client), Text.Lower(term))
    || Text.Contains(Text.Lower(row.technician), Text.Lower(term))
    || Text.Contains(Text.Lower(row.id), Text.Lower(term))
  }

  function MatchesTerm(term: string): CollectionRow -> bool {
    row => RowMatches(term, row)
  }

  /** `filteredCollections` */
  function FilterCollections(rows: seq<CollectionRow>, term: string): (r: seq<CollectionRow>)
    ensures |r| <= |rows|
    ensures forall x :: x in r <==> x in rows && RowMatches(term, x)
  {
    Seqs.Filter(rows, MatchesTerm(term))
  }

  /** The result is the input with some rows left out and the rest in order; an
      empty term keeps every row. */
  lemma FilterCollectionsOrder(rows: seq<CollectionRow>, term: string)
    ensures Seqs.IsSubsequence(FilterCollections(rows, term), rows)
    ensures term == "" ==> FilterCollections(rows, term) == rows
  {
    Seqs.FilterIsSubsequence(rows, MatchesTerm(term));
    if term == "" {
      forall row | row in rows ensures MatchesTerm(term)(row) {
        Text.ContainsEmpty(Text.Lower(row.client));
      }
      Seqs.FilterKeepsAll(rows, MatchesTerm(term));
    }
  }

  /** The page opens with an empty search term, which shows all five rows. */
  lemma InitialSearchShowsAllRows()
    ensures |MOCK_COLLECTIONS| == 5
    ensures FilterCollections(MOCK_COLLECTIONS, "") == MOCK_COLLECTIONS
  {
    FilterCollectionsOrder(MOCK_COLLECTIONS, "");
  }

  /** Refining the search only narrows it: rows that match a longer term that
      extends the shorter one also match the shorter one. */
  lemma FilterCollectionsNarrows(rows: seq<CollectionRow>, term: string, more: string)
    ensures forall x :: x in FilterCollections(rows, term + more) ==> x in FilterCollections(rows, term)
  {
    forall row | row in FilterCollections(rows, term + more) ensures row in FilterCollections(rows, term) {
      var t, u := Text.Lower(term), Text.Lower(more);
      Text.LowerConcat(term, more);
      if Text.Contains(Text.Lower(row.client), t + u) {
        Text.ContainsPrefix(Text.Lower(row.client), t, u);
      } else if Text.Contains(Text.Lower(row.technician), t + u) {
        Text.ContainsPrefix(Text.Lower(row.technician), t, u);
      } else {
        Text.ContainsPrefix(Text.Lower(row.id), t, u);
      }
    }
  }
}

/**
 * src/utils/searchUtils.js: accent- and case-insensitive text search over
 * the string fields of items.
 */
module SearchUtils {
  import Text
  import opened Lists

  /** A field of an item as JavaScript sees it: a string, nothing, or a value of another type. */
  datatype FieldValue = Str(s: string) | Absent | OtherValue(truthy: bool)

  /** An item: its fields by name. */
  type Item = map<string, FieldValue>

  predicate Falsy(v: FieldValue) {
    v == Str("") || v.Absent? || (v.OtherValue? && !v.truthy)
  }

  /** normalizeSearchText: lower case without accents; anything but a non-empty string gives "". */
  function NormalizeSearchText(v: FieldValue): (r: string)
    ensures !v.Str? ==> r == ""
    ensures v.Str? ==> r == Text.Normalize(v.s)
    ensures forall i :: 0 <= i < |r| ==> !Text.IsUpper(r[i]) && !Text.IsCombining(r[i])
  {
    if v.Str? && v.s != "" then Text.Normalize(v.s) else ""
  }

  const DefaultSearchFields: seq<string> := ["title", "name"]

  /** The item has the field as a non-empty string whose normalised form contains `term`. */
  predicate FieldMatches(item: Item, field: string, term: string) {
    field in item && item[field].Str? && item[field].s != ""
    && Text.Contains(NormalizeSearchText(item[field]), term)
  }

  predicate AnyFieldMatches(item: Item, fields: seq<string>, term: string) {
    exists f :: f in fields && FieldMatches(item, f, term)
  }

  /**
   * filterBySearchIgnoreAccents: with a falsy term or no items, the items
   * unchanged; otherwise exactly the items with a listed field that
   * matches, in their order.
   */
  function FilterBySearchIgnoreAccents(items: seq<Item>, searchTerm: FieldValue, fields: seq<string>): (r: seq<Item>)
    ensures Falsy(searchTerm) || items == [] ==> r == items
    ensures SubsequenceOf(r, items)
    ensures !Falsy(searchTerm) && items != [] ==>
      var q := NormalizeSearchText(searchTerm);
      && (forall x :: x in r ==> AnyFieldMatches(x, fields, q))
      && (forall x :: x in items && AnyFieldMatches(x, fields, q) ==> x in r)
    ensures !Falsy(searchTerm) && items != [] ==>
      FilteredBy(r, items, (x: Item) => AnyFieldMatches(x, fields, NormalizeSearchText(searchTerm)))
  {
    if Falsy(searchTerm) || items == [] then
      PrefixIsSubsequence(items, |items|);
      assert items[..|items|] == items;
      items
    else
      var q := NormalizeSearchText(searchTerm);
      var keep := (x: Item) => AnyFieldMatches(x, fields, q);
      FilterIsSubsequence(items, keep);
      FilterExact(items, keep);
      assert forall x :: x in items && AnyFieldMatches(x, fields, q) ==> x in Filter(items, keep) by {
        forall x | x in items && AnyFieldMatches(x, fields, q)
          ensures x in Filter(items, keep)
        {
          FilterKeeps(items, keep, x);
        }
      }
      Filter(items, keep)
  }

  predicate HasStringField(item: Item, fields: seq<string>) {
    exists f :: f in fields && f in item && item[f].Str? && item[f].s != ""
  }

  /**
   * A truthy term that is not a string normalises to "", which every string
   * contains: every item with a non-empty listed string field is kept.
   */
  lemma NonStringTermKeepsStringItems(items: seq<Item>, fields: seq<string>)
    requires items != []
    ensures forall x :: x in items && HasStringField(x, fields) ==>
      x in FilterBySearchIgnoreAccents(items, OtherValue(true), fields)
  {
    forall x: Item | x in items && HasStringField(x, fields)
      ensures x in FilterBySearchIgnoreAccents(items, OtherValue(true), fields)
    {
      var f: string :| f in fields && f in x && x[f].Str? && x[f].s != "";
      Text.ContainsEmpty(NormalizeSearchText(x[f]));
      assert FieldMatches(x, f, "");
    }
  }
}

/**
 * The TV live screen (src/pages/TVLiveTV.jsx): the category list, the
 * channel lists fetched per category, the selected category and the route
 * opened for a channel.
 */
module TvLive {
  import opened Wrappers
  import TvChannelGrid

  datatype Channel = Channel(id: Option<string>, oid: Option<string>, name: string)

  /** The category list: the fetched one, or ["Todos"] when the fetch yields nothing. */
  function CategoriesOf(fetched: Option<seq<string>>): (r: seq<string>)
    ensures fetched.None? ==> r == ["Todos"]
    ensures fetched.Some? ==> r == fetched.value
  {
    fetched.GetOr(["Todos"])
  }

  /**
   * The outcome of the channel fetch of one category: `None` when the
   * request failed or answered nothing.
   */
  datatype FetchResult = FetchResult(category: string, channels: Option<seq<Channel>>)

  /** The channels stored for `cat`: those of its last result, [] when that fetch failed. */
  function ChannelsOf(results: seq<FetchResult>, cat: string): seq<Channel>
    requires exists i :: 0 <= i < |results| && results[i].category == cat
  {
    var last := results[|results| - 1];
    if last.category == cat then last.channels.GetOr([])
    else ChannelsOf(results[..|results| - 1], cat)
  }

  function CategoriesIn(results: seq<FetchResult>): (r: set<string>)
    ensures forall c :: c in r <==> exists i :: 0 <= i < |results| && results[i].category == c
  {
    set i | 0 <= i < |results| :: results[i].category
  }

  /** The forEach that fills channelsMap. */
  method BuildChannelsMap(results: seq<FetchResult>) returns (m: map<string, seq<Channel>>)
    ensures m.Keys == CategoriesIn(results)
    ensures forall c :: c in m ==> m[c] == ChannelsOf(results, c)
  {
    m := map[];
    var i := 0;
    while i < |results|
      invariant 0 <= i <= |results|
      invariant m.Keys == CategoriesIn(results[..i])
      invariant forall c :: c in m ==> m[c] == ChannelsOf(results[..i], c)
    {
      assert results[..i + 1][..i] == results[..i];
      m := m[results[i].category := results[i].channels.GetOr([])];
      i := i + 1;
    }
    assert results[..i] == results;
  }

  /**
   * A failed fetch for one category leaves that category with no channels
   * and every other category with what it had.
   */
  lemma {:induction false} FailureIsLocal(results: seq<FetchResult>, k: nat, cat: string)
    requires k < |results|
    requires exists i :: 0 <= i < |results| && results[i].category == cat
    ensures var failed := results[k := FetchResult(results[k].category, None)];
      && (exists i :: 0 <= i < |failed| && failed[i].category == cat)
      && (cat != results[k].category ==> ChannelsOf(failed, cat) == ChannelsOf(results, cat))
      && (cat == results[k].category && (forall i :: 0 <= i < |results| && i != k ==> results[i].category != cat)
          ==> ChannelsOf(failed, cat) == [])
  {
    var failed := results[k := FetchResult(results[k].category, None)];
    var j :| 0 <= j < |results| && results[j].category == cat;
    assert failed[j].category == cat;
    var n := |results|;
    if k == n - 1 {
      if results[n - 1].category != cat {
        assert failed[..n - 1] == results[..n - 1];
      }
    } else {
      assert failed[..n - 1] == results[..n - 1][k := FetchResult(results[k].category, None)];
      if results[n - 1].category != cat {
        assert results[..n - 1][j].category == cat;
        FailureIsLocal(results[..n - 1], k, cat);
      }
    }
  }

  /** handleCategoryChange: one step back or forward, clamped to the list. */
  function ChangedCategory(count: nat, index: int, request: TvChannelGrid.CategoryRequest): (r: int)
    ensures request.Prev? ==> r == (if index - 1 > 0 then index - 1 else 0)
    ensures request.Next? ==> r == (if index + 1 < count - 1 then index + 1 else count - 1)
  {
    match request
    case Prev => if index - 1 > 0 then index - 1 else 0
    case Next => if index + 1 < count - 1 then index + 1 else count - 1
  }

  /**
   * The grid asks for a change only when it can happen, so from a valid
   * category the screen moves by exactly one and stays on a valid category.
   */
  lemma GridRequestsStayInRange(count: nat, index: int, request: TvChannelGrid.CategoryRequest)
    requires 0 <= index < count
    requires request.Prev? ==> index > 0
    requires request.Next? ==> index < count - 1
    ensures var r := ChangedCategory(count, index, request);
      0 <= r < count && r == (if request.Prev? then index - 1 else index + 1)
  {
  }

  /** The channels shown: the list of the selected category, or [] when it has none. */
  function CurrentChannels(m: map<string, seq<Channel>>, categories: seq<string>, index: int): (r: seq<Channel>)
    ensures 0 <= index < |categories| && categories[index] in m ==> r == m[categories[index]]
    ensures !(0 <= index < |categories| && categories[index] in m) ==> r == []
  {
    if 0 <= index < |categories| && categories[index] in m then m[categories[index]] else []
  }

  /** The route opened for a channel: its id, or its database id when the id is absent or empty. */
  function ChannelRoute(c: Channel): (r: string)
    ensures c.id.Some? && c.id.value != "" ==> r == "/watch/" + c.id.value
    ensures !(c.id.Some? && c.id.value != "") && c.oid.Some? ==> r == "/watch/" + c.oid.value
    ensures !(c.id.Some? && c.id.value != "") && c.oid.None? ==> r == "/watch/undefined"
  {
    "/watch/" + (if c.id.Some? && c.id.value != "" then c.id.value else if c.oid.Some? then c.oid.value else "undefined")
  }

  class TvLiveScreen {
    var categories: seq<string>
    var channelsMap: map<string, seq<Channel>>
    var selectedCategoryIndex: int

    constructor ()
      ensures categories == [] && channelsMap == map[] && selectedCategoryIndex == 0
    {
      categories := [];
      channelsMap := map[];
      selectedCategoryIndex := 0;
    }

    /** The end of loading: the categories and the per-category channel lists. */
    method Loaded(fetched: Option<seq<string>>, results: seq<FetchResult>)
      modifies this`categories, this`channelsMap
      ensures categories == CategoriesOf(fetched)
      ensures channelsMap.Keys == CategoriesIn(results)
      ensures forall c :: c in channelsMap ==> channelsMap[c] == ChannelsOf(results, c)
    {
      categories := CategoriesOf(fetched);
      channelsMap := BuildChannelsMap(results);
    }

    method CategoryChange(request: TvChannelGrid.CategoryRequest)
      modifies this`selectedCategoryIndex
      ensures selectedCategoryIndex == ChangedCategory(|categories|, old(selectedCategoryIndex), request)
    {
      if request == TvChannelGrid.Prev {
        selectedCategoryIndex := if selectedCategoryIndex - 1 > 0 then selectedCategoryIndex - 1 else 0;
      } else {
        selectedCategoryIndex := if selectedCategoryIndex + 1 < |categories| - 1 then selectedCategoryIndex + 1 else |categories| - 1;
      }
    }
  }
}

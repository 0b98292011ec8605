/**
 * The `TextsVisualizer` component's decision logic: the batch gate over the
 * run's text values, the in-place reversal of the value array, and the
 * per-item block with at most one rendered payload; otherwise the whole
 * collection goes to the fallback list. The widgets (3-D viewer, grid,
 * iframe, list) are represented only by what they are handed.
 */
module TextsVisualizer {
  import opened Wrappers
  import opened JsString
  import opened DataUri
  import opened TableRecords

  /** One text value of a run. */
  datatype Item = Item(step: int, index: int, text: string)

  /** A rendered payload: what the viewer, the grid or the iframe receives. */
  datatype Part<V> =
    | MoleculeView(molecule: Molecule)
    | TableGrid(grid: Option<TableView<V>>)
    | HtmlFrame(url: string)

  /** One rich-path block: the item's step and the payloads rendered under it. */
  datatype Block<V> = Block(step: int, parts: seq<Part<V>>)

  /** The component's output: per-item blocks, or the fallback list with its table data. */
  datatype View<V> = Rich(blocks: seq<Block<V>>) | Fallback(tableData: Option<seq<Item>>)

  /** Every text in the collection starts with `data:text/`. */
  predicate AllCustom(items: seq<Item>)
  {
    forall i :: 0 <= i < |items| ==> IsCustom(items[i].text)
  }

  /** `is_all_custom_data`: false for a missing collection, otherwise whether every text is custom. */
  method IsAllCustomData(rs: array?<Item>) returns (b: bool)
    ensures b <==> rs != null && AllCustom(rs[..])
  {
    if rs == null {
      return false;
    }
    var i := 0;
    while i < rs.Length
      invariant 0 <= i <= rs.Length
      invariant forall j :: 0 <= j < i ==> IsCustom(rs[j].text)
    {
      if !StartsWith(rs[i].text, CustomPrefix) {
        return false;
      }
      i := i + 1;
    }
    return true;
  }

  /** The reverse of a sequence. */
  function Reversed<T>(s: seq<T>): (r: seq<T>)
    ensures |r| == |s|
  {
    if s == [] then [] else Reversed(s[1..]) + [s[0]]
  }

  /** Element `k` of the reverse is element `|s| - 1 - k` of the original. */
  lemma {:induction false} ReversedAt<T>(s: seq<T>, k: nat)
    requires k < |s|
    ensures Reversed(s)[k] == s[|s| - 1 - k]
  {
    if k < |s| - 1 {
      ReversedAt(s[1..], k);
    }
  }

  /** `Array.prototype.reverse`, which reverses the array in place. */
  method ReverseInPlace<T>(a: array<T>)
    modifies a
    ensures a[..] == Reversed(old(a[..]))
  {
    var n, i := a.Length, 0;
    while i < n / 2
      invariant 0 <= i <= n / 2
      invariant forall k :: 0 <= k < i ==> a[k] == old(a[n - 1 - k]) && a[n - 1 - k] == old(a[k])
      invariant forall k :: i <= k < n - i ==> a[k] == old(a[k])
    {
      a[i], a[n - 1 - i] := a[n - 1 - i], a[i];
      i := i + 1;
    }
    ghost var was := old(a[..]);
    forall k | 0 <= k < n ensures a[..][k] == Reversed(was)[k] {
      ReversedAt(was, k);
    }
  }

  /** The payloads the three guarded renderers produce for one text, in the order they appear. */
  function PartsOf<V>(text: string, parse: string -> Option<TableData<V>>, encode: string -> string)
    : seq<Part<V>>
  {
    (if IsMolecular(text) then [MoleculeView(MolecularDecode(text))] else [])
    + (if IsTable(text) then [TableGrid(TableViewOf(text, parse))] else [])
    + (if IsHtml(text) then [HtmlFrame(HtmlUrl(text, encode))] else [])
  }

  /** The block rendered for one item: the specification of `RenderBlock`. */
  function BlockOf<V>(item: Item, parse: string -> Option<TableData<V>>, encode: string -> string)
    : Block<V>
  {
    Block(item.step, PartsOf(item.text, parse, encode))
  }

  /**
   * A block shows its item's step and at most one payload: the one of the
   * item's kind, and none for plain text or an unknown `data:text/` subtype.
   */
  lemma BlockShowsAtMostOne<V>(item: Item, parse: string -> Option<TableData<V>>, encode: string -> string)
    ensures BlockOf(item, parse, encode).step == item.step
    ensures |BlockOf(item, parse, encode).parts| <= 1
    ensures BlockOf(item, parse, encode).parts == [] <==> Classify(item.text) == PlainText
    ensures Classify(item.text) == Molecular ==>
      BlockOf(item, parse, encode).parts == [MoleculeView(MolecularDecode(item.text))]
    ensures Classify(item.text) == Table ==>
      BlockOf(item, parse, encode).parts == [TableGrid(TableViewOf(item.text, parse))]
    ensures Classify(item.text) == Html ==>
      BlockOf(item, parse, encode).parts == [HtmlFrame(HtmlUrl(item.text, encode))]
  {
    ClassifyIff(item.text);
  }

  /**
   * The three guarded renderers of one item, as the block's JSX evaluates them;
   * `BlockOf` is its specification.
   */
  method RenderBlock<V>(item: Item, parse: string -> Option<TableData<V>>, encode: string -> string)
    returns (b: Block<V>)
    ensures b == BlockOf(item, parse, encode)
  {
    var molecule: seq<Part<V>> := [];
    if IsMolecular(item.text) {
      molecule := [MoleculeView(MolecularDecode(item.text))];
    }
    var table: seq<Part<V>> := [];
    if IsTable(item.text) {
      var grid := RenderTable(item.text, parse);
      table := [TableGrid(grid)];
    }
    var html: seq<Part<V>> := [];
    if IsHtml(item.text) {
      html := [HtmlFrame(HtmlUrl(item.text, encode))];
    }
    var parts := molecule + table + html;
    b := Block(item.step, parts);
  }

  /** `.map(...)` over the (already reversed) array: one block per element, in array order. */
  method RenderBlocks<V>(a: array<Item>, parse: string -> Option<TableData<V>>, encode: string -> string)
    returns (blocks: seq<Block<V>>)
    ensures |blocks| == a.Length
    ensures forall j :: 0 <= j < a.Length ==> blocks[j] == BlockOf(a[j], parse, encode)
  {
    blocks := [];
    for i := 0 to a.Length
      invariant |blocks| == i
      invariant forall j :: 0 <= j < i ==> blocks[j] == BlockOf(a[j], parse, encode)
    {
      var b := RenderBlock(a[i], parse, encode);
      blocks := blocks + [b];
    }
  }

  /** The rich path's blocks for a collection: reverse it, then one block per element. */
  function RichBlocks<V>(items: seq<Item>, parse: string -> Option<TableData<V>>, encode: string -> string)
    : seq<Block<V>>
  {
    var r := Reversed(items);
    seq(|r|, i requires 0 <= i < |r| => BlockOf(r[i], parse, encode))
  }

  /** Block `i` of the rich path belongs to input element `n - 1 - i`: the latest item comes first. */
  lemma RichBlockOrder<V>(items: seq<Item>, parse: string -> Option<TableData<V>>, encode: string -> string)
    ensures |RichBlocks(items, parse, encode)| == |items|
    ensures forall i :: 0 <= i < |items| ==>
      RichBlocks(items, parse, encode)[i] == BlockOf(items[|items| - 1 - i], parse, encode) &&
      RichBlocks(items, parse, encode)[i].step == items[|items| - 1 - i].step
  {
    forall i | 0 <= i < |items|
      ensures RichBlocks(items, parse, encode)[i] == BlockOf(items[|items| - 1 - i], parse, encode)
    {
      ReversedAt(items, i);
    }
  }

  /**
   * The component as written: the gate decides; on the rich path the value
   * array is reversed in place and each element gets its block; otherwise the
   * fallback list receives the collection unchanged.
   */
  method Visualize<V>(values: array?<Item>, parse: string -> Option<TableData<V>>, encode: string -> string)
    returns (view: View<V>)
    modifies values
    ensures values == null ==> view == Fallback(None)
    ensures values != null && !AllCustom(old(values[..])) ==>
      values[..] == old(values[..]) && view == Fallback(Some(values[..]))
    ensures values != null && AllCustom(old(values[..])) ==>
      values[..] == Reversed(old(values[..])) && view == Rich(RichBlocks(old(values[..]), parse, encode))
  {
    var rich := IsAllCustomData(values);
    if !rich {
      if values == null {
        return Fallback(None);
      }
      return Fallback(Some(values[..]));
    }
    ReverseInPlace(values);
    var blocks := RenderBlocks(values, parse, encode);
    assert blocks == RichBlocks(old(values[..]), parse, encode);
    view := Rich(blocks);
  }

  /**
   * Two renders of the same value array: because the first reversed the
   * array, the second shows the items oldest first.
   */
  method RenderTwice<V>(values: array<Item>, parse: string -> Option<TableData<V>>, encode: string -> string)
    returns (first: View<V>, second: View<V>)
    requires AllCustom(values[..])
    modifies values
    ensures first.Rich? && second.Rich?
    ensures |first.blocks| == |second.blocks| == values.Length
    ensures forall i :: 0 <= i < values.Length ==>
      first.blocks[i].step == old(values[values.Length - 1 - i]).step &&
      second.blocks[i].step == old(values[i]).step
  {
    ghost var s := values[..];
    ghost var n := values.Length;
    first := Visualize(values, parse, encode);
    RichBlockOrder(s, parse, encode);
    ghost var r := values[..];
    assert r == Reversed(s);
    ReversedAllCustom(s);
    second := Visualize(values, parse, encode);
    assert second == Rich(RichBlocks(r, parse, encode));
    RichBlockOrder(r, parse, encode);
    forall i | 0 <= i < n ensures second.blocks[i].step == s[i].step {
      ReversedAt(s, n - 1 - i);
      assert r[n - 1 - i] == s[i];
    }
  }

  /** Reversing a collection does not change whether it passes the gate. */
  lemma ReversedAllCustom(s: seq<Item>)
    ensures AllCustom(Reversed(s)) <==> AllCustom(s)
  {
    var n := |s|;
    forall i | 0 <= i < n ensures Reversed(s)[i] == s[n - 1 - i] && Reversed(s)[n - 1 - i] == s[i] {
      ReversedAt(s, i);
      ReversedAt(s, n - 1 - i);
    }
    var r := Reversed(s);
    if AllCustom(s) {
      forall i | 0 <= i < n ensures IsCustom(r[i].text) {
        assert r[i] == s[n - 1 - i];
      }
    }
    if AllCustom(r) {
      forall i | 0 <= i < n ensures IsCustom(s[i].text) {
        assert r[n - 1 - i] == s[i];
      }
    }
  }

  /** A two-item rich batch whose second render disagrees with its first. */
  lemma RerenderFlipsOrder<V>(parse: string -> Option<TableData<V>>, encode: string -> string)
    ensures var s := [Item(1, 0, "data:text/x"), Item(2, 0, "data:text/x")];
      AllCustom(s) &&
      RichBlocks(s, parse, encode)[0].step == 2 &&
      RichBlocks(Reversed(s), parse, encode)[0].step == 1
  {
    var s := [Item(1, 0, "data:text/x"), Item(2, 0, "data:text/x")];
    assert s[0].text[..10] == CustomPrefix;
    assert Reversed(s) == [s[1], s[0]] by {
      assert s[1..][1..] == [];
    }
    assert Reversed([s[1], s[0]]) == s by {
      assert [s[1], s[0]][1..] == [s[0]];
    }
    RichBlockOrder(s, parse, encode);
    RichBlockOrder(Reversed(s), parse, encode);
  }

  /**
   * The component as evidently intended: the rich path reverses a copy, so
   * the caller's array is left alone and every render of the same collection
   * yields the same view, latest item first.
   */
  method VisualizeCopy<V>(values: array?<Item>, parse: string -> Option<TableData<V>>, encode: string -> string)
    returns (view: View<V>)
    ensures values == null ==> view == Fallback(None)
    ensures values != null && !AllCustom(values[..]) ==> view == Fallback(Some(values[..]))
    ensures values != null && AllCustom(values[..]) ==>
      view.Rich? && view.blocks == RichBlocks(values[..], parse, encode)
  {
    var rich := IsAllCustomData(values);
    if !rich {
      if values == null {
        return Fallback(None);
      }
      return Fallback(Some(values[..]));
    }
    var copy := new Item[values.Length](i requires 0 <= i < values.Length reads values => values[i]);
    assert copy[..] == values[..];
    ReverseInPlace(copy);
    var blocks := RenderBlocks(copy, parse, encode);
    assert blocks == RichBlocks(values[..], parse, encode);
    view := Rich(blocks);
  }
}

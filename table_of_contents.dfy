/** The documentation site's `tableOfContent` helper: it merges the caller's
    options over the default depths, asks `tocObj` for the headings of a page
    and renders them as one ordered list with one list item per heading. The
    heading extraction itself belongs to the site generator and is a
    parameter here. */
module TableOfContents {
  import opened Common

  /** A heading as `tocObj` reports it. */
  datatype Item = Item(level: nat, id: string, text: string)

  const DefaultOptions: map<string, Val> := map["min_depth" := Num(1), "max_depth" := Num(6)]

  const ListOpen := "<ol class=\"toc-list\">"
  const ListClose := "</ol>"

  /** `Object.assign({min_depth: 1, max_depth: 6}, options)`: the caller's
      options win, the defaults fill the rest. */
  function WithDefaults(options: map<string, Val>): (merged: map<string, Val>)
    ensures merged.Keys == options.Keys + {"min_depth", "max_depth"}
    ensures forall k :: k in options ==> merged[k] == options[k]
    ensures "min_depth" !in options ==> merged["min_depth"] == Num(1)
    ensures "max_depth" !in options ==> merged["max_depth"] == Num(6)
  {
    DefaultOptions + options
  }

  const LevelPrefix := "<li class=\"toc-list-level-"

  /** The list item of one heading. */
  function ListItem(item: Item): string {
    LevelPrefix + NatToString(item.level) + "\"><a href=\"#" + item.id + "\">" + item.text + "</a></li>"
  }

  /** The text up to the first double quote. */
  function UpToQuote(s: string): string {
    if |s| == 0 || s[0] == '"' then "" else [s[0]] + UpToQuote(s[1..])
  }

  lemma {:induction false} UpToQuoteStops(digits: string, rest: string)
    requires forall i :: 0 <= i < |digits| ==> digits[i] != '"'
    requires |rest| > 0 && rest[0] == '"'
    ensures UpToQuote(digits + rest) == digits
  {
    if |digits| > 0 {
      assert (digits + rest)[1..] == digits[1..] + rest;
      UpToQuoteStops(digits[1..], rest);
    } else {
      assert digits + rest == rest;
    }
  }

  /** The heading level a list item's class names, if it names one. */
  function LevelOf(li: string): Option<int> {
    if StartsWith(li, LevelPrefix) then ParseInt(UpToQuote(li[|LevelPrefix|..])) else None
  }

  /** A list item's class names its heading's level. */
  lemma {:induction false} LevelReadsBack(item: Item)
    ensures LevelOf(ListItem(item)) == Some(item.level)
  {
    var digits := NatToString(item.level);
    var rest := "\"><a href=\"#" + item.id + "\">" + item.text + "</a></li>";
    assert ListItem(item) == LevelPrefix + (digits + rest);
    assert ListItem(item)[..|LevelPrefix|] == LevelPrefix;
    assert ListItem(item)[|LevelPrefix|..] == digits + rest;
    UpToQuoteStops(digits, rest);
    ParseIntNatToString(item.level);
  }

  /** The rendered headings, in order. */
  function Rendered(items: seq<Item>, render: Item -> string): string {
    if |items| == 0 then "" else Rendered(items[..|items| - 1], render) + render(items[|items| - 1])
  }

  /** The list items of the headings, in order. */
  function ListItems(items: seq<Item>): string {
    Rendered(items, ListItem)
  }

  /** Two runs of headings render as the first, then the second. */
  lemma {:induction false} RenderedAppend(a: seq<Item>, b: seq<Item>, render: Item -> string)
    ensures Rendered(a + b, render) == Rendered(a, render) + Rendered(b, render)
    decreases |b|
  {
    if |b| == 0 {
      assert a + b == a;
    } else {
      var init := b[..|b| - 1];
      assert (a + b)[..|a + b| - 1] == a + init;
      assert (a + b)[|a + b| - 1] == b[|b| - 1];
      RenderedAppend(a, init, render);
    }
  }

  lemma {:induction false} RenderedSnoc(before: seq<Item>, x: Item, render: Item -> string)
    ensures Rendered(before + [x], render) == Rendered(before, render) + render(x)
  {
    assert (before + [x])[..|before|] == before;
  }

  lemma {:induction false} RenderedAround(before: seq<Item>, x: Item, after: seq<Item>, render: Item -> string)
    ensures Rendered(before + [x] + after, render) == Rendered(before, render) + render(x) + Rendered(after, render)
  {
    RenderedSnoc(before, x, render);
    RenderedAppend(before + [x], after, render);
  }

  /** Each heading's list item sits between those of the headings before it
      and those after it: one item per heading, in input order. */
  lemma {:induction false} ItemsInOrder(items: seq<Item>, i: nat)
    requires i < |items|
    ensures ListItems(items) == ListItems(items[..i]) + ListItem(items[i]) + ListItems(items[i + 1..])
  {
    assert items == items[..i] + [items[i]] + items[i + 1..];
    RenderedAround(items[..i], items[i], items[i + 1..], ListItem);
  }

  /** `tableOfContent(str, options)`, with `tocObj` the site generator's
      heading extraction, called with the merged depths. */
  method TableOfContent(str: string, options: map<string, Val>, tocObj: (string, Val, Val) -> seq<Item>)
    returns (html: string)
    ensures var data := tocObj(str, WithDefaults(options)["min_depth"], WithDefaults(options)["max_depth"]);
      (|data| == 0 ==> html == "")
      && (|data| > 0 ==> html == ListOpen + ListItems(data) + ListClose)
  {
    var merged := DefaultOptions + options;
    var data := tocObj(str, merged["min_depth"], merged["max_depth"]);
    if |data| == 0 {
      return "";
    }
    var items := "";
    for i := 0 to |data|
      invariant items == ListItems(data[..i])
    {
      assert data[..i + 1][..i] == data[..i];
      items := items + ListItem(data[i]);
    }
    assert data[..|data|] == data;
    html := ListOpen + items + ListClose;
  }

  lemma {:induction false} Wrapped(open: string, body: string, close: string)
    ensures StartsWith(open + body + close, open) && EndsWith(open + body + close, close)
  {
    assert (open + body + close)[..|open|] == open;
    assert (open + body + close)[|open + body + close| - |close|..] == close;
  }

  /** A non-empty result is one ordered list, opened once at the start and
      closed at the end; an empty one means there were no headings. */
  lemma {:induction false} RenderShape(data: seq<Item>)
    ensures StartsWith(ListOpen + ListItems(data) + ListClose, ListOpen)
    ensures EndsWith(ListOpen + ListItems(data) + ListClose, ListClose)
    ensures ListOpen + ListItems(data) + ListClose != ""
  {
    Wrapped(ListOpen, ListItems(data), ListClose);
  }
}

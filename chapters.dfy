/**
 * Chapters: named, coloured accumulators of HTML fragments that may count
 * how many headed entries were added (index.js:242-284).
 */
module Chapters {
  import opened Wrappers

  /** The observable state of a chapter at one moment. */
  datatype ChapterView = ChapterView(name: string, color: string, html: string, count: Option<nat>)

  /** JavaScript truthiness of an optional string argument: present and non-empty. */
  predicate Truthy(s: Option<string>) {
    s.Some? && s.value != ""
  }

  /** The colour a chapter is created with: the given one if truthy, "black" otherwise. */
  function ColorOrDefault(color: Option<string>): (c: string)
    ensures Truthy(color) ==> c == color.value
    ensures !Truthy(color) ==> c == "black"
  {
    if Truthy(color) then color.value else "black"
  }

  /** State of a newly constructed chapter. */
  function Initial(name: string, hasCount: bool, color: Option<string>): (v: ChapterView)
    ensures v.name == name && v.html == ""
    ensures v.count.Some? <==> hasCount
    ensures v.count.Some? ==> v.count.value == 0
    ensures v.color == ColorOrDefault(color)
  {
    ChapterView(name, ColorOrDefault(color), "", if hasCount then Some(0) else None)
  }

  /** The markup one `add` call appends. */
  function Fragment(color: string, headline: Option<string>, content: string): string {
    (if Truthy(headline) then "<h4><font color=\"" + color + "\">" + headline.value + "</font></h4>" else "<br/>")
    + "<span>" + content + "</span>"
  }

  /** State after `add(headline, content)`. */
  function Added(v: ChapterView, headline: Option<string>, content: string): ChapterView {
    v.(html := v.html + Fragment(v.color, headline, content),
       count := if v.count.Some? && Truthy(headline) then Some(v.count.value + 1) else v.count)
  }

  /** State after `reset()`. */
  function Cleared(v: ChapterView): ChapterView {
    v.(html := "", count := if v.count.Some? then Some(0) else None)
  }

  /** One call of `add`, recorded as its two arguments. */
  datatype AddCall = AddCall(headline: Option<string>, content: string)

  /** State after the calls in order. */
  function AddedAll(v: ChapterView, calls: seq<AddCall>): ChapterView {
    if calls == [] then v
    else
      var last := calls[|calls| - 1];
      Added(AddedAll(v, calls[..|calls| - 1]), last.headline, last.content)
  }

  /** Number of calls whose headline is truthy. */
  function Headed(calls: seq<AddCall>): nat {
    if calls == [] then 0
    else Headed(calls[..|calls| - 1]) + (if Truthy(calls[|calls| - 1].headline) then 1 else 0)
  }

  /** Counting headed calls is additive: two batches of `add` calls bump the
      counter by the sum of their headed calls. */
  lemma {:induction false} HeadedAppend(a: seq<AddCall>, b: seq<AddCall>)
    ensures Headed(a + b) == Headed(a) + Headed(b)
  {
    if b == [] {
      assert a + b == a;
    } else {
      var b0 := b[..|b| - 1];
      assert (a + b)[..|a + b| - 1] == a + b0;
      assert (a + b)[|a + b| - 1] == b[|b| - 1];
      HeadedAppend(a, b0);
    }
  }

  /** One `add` keeps the old markup as a prefix, appends exactly its fragment,
      and bumps the counter iff the chapter counts and the headline is truthy. */
  lemma AddedSpec(v: ChapterView, headline: Option<string>, content: string)
    ensures var r := Added(v, headline, content);
      && r.name == v.name && r.color == v.color
      && v.html <= r.html
      && r.html[|v.html|..] == Fragment(v.color, headline, content)
      && (Truthy(headline) ==> r.html[|v.html|..] == "<h4><font color=\"" + v.color + "\">" + headline.value + "</font></h4>" + "<span>" + content + "</span>")
      && (!Truthy(headline) ==> r.html[|v.html|..] == "<br/>" + "<span>" + content + "</span>")
      && r.count.Some? == v.count.Some?
      && (r.count.Some? ==> (r.count.value == v.count.value + 1 <==> Truthy(headline)))
      && (r.count.Some? && !Truthy(headline) ==> r.count == v.count)
  {
  }

  /** A sequence of adds: the counter (if any) grows by the number of headed calls,
      a chapter without a counter never gains one, and earlier markup is kept. */
  lemma {:induction false} AddedAllSpec(v: ChapterView, calls: seq<AddCall>)
    ensures var r := AddedAll(v, calls);
      && r.name == v.name && r.color == v.color
      && v.html <= r.html
      && r.count.Some? == v.count.Some?
      && (r.count.Some? ==> r.count.value == v.count.value + Headed(calls))
  {
    if calls != [] {
      var init := calls[..|calls| - 1];
      var last := calls[|calls| - 1];
      AddedAllSpec(v, init);
      AddedSpec(AddedAll(v, init), last.headline, last.content);
    }
  }

  /** A fresh counting chapter, after N headed and M headless adds, has count N;
      a fresh non-counting chapter still has no count. */
  lemma CountAfterAdds(name: string, hasCount: bool, color: Option<string>, calls: seq<AddCall>)
    ensures hasCount ==> AddedAll(Initial(name, hasCount, color), calls).count == Some(Headed(calls))
    ensures !hasCount ==> AddedAll(Initial(name, hasCount, color), calls).count == None
  {
    AddedAllSpec(Initial(name, hasCount, color), calls);
  }

  /** A reset empties the markup, zeroes an existing counter, never creates one,
      and a second reset changes nothing. */
  lemma ClearedSpec(v: ChapterView)
    ensures var r := Cleared(v);
      && r.html == "" && r.name == v.name && r.color == v.color
      && r.count.Some? == v.count.Some?
      && (r.count.Some? ==> r.count.value == 0)
      && Cleared(r) == r
  {
  }

  /** A chapter object. `counted` records the constructor's `hasCount` flag:
      in the source the `count` property exists exactly when it was set. */
  class Chapter {
    const name: string
    const color: string
    ghost const counted: bool
    var html: string
    var count: Option<nat>

    ghost predicate Valid()
      reads this
    {
      count.Some? == counted
    }

    function View(): ChapterView
      reads this
    {
      ChapterView(name, color, html, count)
    }

    constructor (name: string, hasCount: bool, color: Option<string>)
      ensures Valid() && counted == hasCount
      ensures View() == Initial(name, hasCount, color)
    {
      this.name := name;
      this.html := "";
      this.counted := hasCount;
      this.count := if hasCount then Some(0) else None;
      this.color := ColorOrDefault(color);
    }

    /** `add(headline, contentHTML)` */
    method Add(headline: Option<string>, content: string)
      requires Valid()
      modifies this
      ensures Valid()
      ensures View() == Added(old(View()), headline, content)
    {
      html := html + Fragment(color, headline, content);
      if count.Some? && Truthy(headline) {
        count := Some(count.value + 1);
      }
    }

    /** `reset()` */
    method Reset()
      requires Valid()
      modifies this
      ensures Valid()
      ensures View() == Cleared(old(View()))
    {
      html := "";
      if count.Some? {
        count := Some(0);
      }
    }
  }
}

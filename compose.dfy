/**
 * Per-recipient composition, the first half of `Mailer.sendMail`
 * (index.js:59-110): resolve the address, decide whether the recipient is
 * emailed, pick the chapters it may see and build subject and body.
 */
module Compose {
  import opened Wrappers
  import opened Chapters
  import Decimal
  import opened Seqs

  /** A configured recipient: a bare address string, or a `Recipient` object
      with an optional gating list and an optional visibility list. The lists
      hold the chapter objects themselves, so they alias the configured chapters. */
  datatype Recipient =
    | Plain(address: string)
    | Rich(address: string, gate: Option<seq<Chapter>>, visible: Option<seq<Chapter>>)

  /** A recipient with its chapters read at one moment. */
  datatype RecipientView = RecipientView(address: string, gate: Option<seq<ChapterView>>, visible: Option<seq<ChapterView>>)

  /** What `sendMail` records per recipient before any delivery starts. */
  datatype Composed = Composed(address: string, sendEmail: bool, subject: string, html: string)

  // ---------------------------------------------------------------------------
  // Reading chapter objects

  function Views(cs: seq<Chapter>): (vs: seq<ChapterView>)
    reads cs
    ensures |vs| == |cs|
    ensures forall i :: 0 <= i < |cs| ==> vs[i] == cs[i].View()
  {
    if cs == [] then [] else Views(cs[..|cs| - 1]) + [cs[|cs| - 1].View()]
  }

  /** The chapter objects a recipient refers to. */
  function Refs(r: Recipient): set<Chapter> {
    match r
    case Plain(_) => {}
    case Rich(_, gate, visible) => (set c | c in gate.GetOr([])) + (set c | c in visible.GetOr([]))
  }

  function Snapshot(r: Recipient): RecipientView
    reads Refs(r)
  {
    match r
    case Plain(a) => RecipientView(a, None, None)
    case Rich(a, gate, visible) =>
      RecipientView(a,
        if gate.Some? then Some(Views(gate.value)) else None,
        if visible.Some? then Some(Views(visible.value)) else None)
  }

  function AllRefs(rs: seq<Recipient>): (s: set<Chapter>)
    ensures forall i :: 0 <= i < |rs| ==> Refs(rs[i]) <= s
  {
    if rs == [] then {} else AllRefs(rs[..|rs| - 1]) + Refs(rs[|rs| - 1])
  }

  function Snapshots(rs: seq<Recipient>): (vs: seq<RecipientView>)
    reads AllRefs(rs)
    ensures |vs| == |rs|
    ensures forall i :: 0 <= i < |rs| ==> vs[i] == Snapshot(rs[i])
  {
    if rs == [] then [] else Snapshots(rs[..|rs| - 1]) + [Snapshot(rs[|rs| - 1])]
  }

  // ---------------------------------------------------------------------------
  // Gating

  /** Whether some chapter of the list has non-empty markup, scanning it in order. */
  predicate AnyNonEmpty(cs: seq<ChapterView>) {
    if cs == [] then false
    else AnyNonEmpty(cs[..|cs| - 1]) || cs[|cs| - 1].html != ""
  }

  /** The scan finds a non-empty chapter exactly when there is one. */
  lemma {:induction false} AnyNonEmptyIff(cs: seq<ChapterView>)
    ensures AnyNonEmpty(cs) <==> exists i :: 0 <= i < |cs| && cs[i].html != ""
  {
    if cs != [] {
      var init := cs[..|cs| - 1];
      AnyNonEmptyIff(init);
      if AnyNonEmpty(init) {
        var i :| 0 <= i < |init| && init[i].html != "";
        assert cs[i] == init[i];
      }
      if exists i :: 0 <= i < |cs| && cs[i].html != "" {
        var i :| 0 <= i < |cs| && cs[i].html != "";
        if i < |init| {
          assert init[i] == cs[i];
        }
      }
    }
  }

  /** `sendEmail`: always without a gating list; with one, only if one of its
      chapters is non-empty (so an empty gating list never sends). */
  predicate SendEmail(gate: Option<seq<ChapterView>>) {
    gate.None? || AnyNonEmpty(gate.value)
  }

  // ---------------------------------------------------------------------------
  // Visibility, subject and body

  /** The chapters a recipient sees: its visibility list if it has one, else all. */
  function Visible(r: RecipientView, all: seq<ChapterView>): seq<ChapterView> {
    if r.visible.Some? then r.visible.value else all
  }

  /** Whether a chapter adds a segment to the subject. */
  predicate HasSegment(c: ChapterView) {
    c.html != "" && c.count.Some? && c.count.value > 0
  }

  /** The subject segment of a chapter named `name` with `count` entries. */
  function SegmentText(name: string, count: nat, stamp: string): string {
    " | [" + name + "]: " + Decimal.DecimalString(count) + " Time: " + stamp
  }

  function Segment(stamp: string, c: ChapterView): string {
    if HasSegment(c) then SegmentText(c.name, c.count.value, stamp) else ""
  }

  function Segments(stamp: string, cs: seq<ChapterView>): string {
    if cs == [] then ""
    else Segments(stamp, cs[..|cs| - 1]) + Segment(stamp, cs[|cs| - 1])
  }

  /** The `<h2>` heading of a non-empty chapter; a counting chapter whose count
      is zero gets none. */
  function HeadingText(color: string, title: string): string {
    "<h2><font color=\"" + color + "\">" + title + "</font></h2>"
  }

  function Heading(c: ChapterView): string {
    if c.count.Some? then
      if c.count.value > 0 then HeadingText(c.color, c.name + ": " + Decimal.DecimalString(c.count.value))
      else ""
    else HeadingText(c.color, c.name)
  }

  /** What one visible chapter contributes to the body. */
  function Section(c: ChapterView): string {
    if c.html != "" then Heading(c) + c.html else ""
  }

  function Body(cs: seq<ChapterView>): string {
    if cs == [] then ""
    else Body(cs[..|cs| - 1]) + Section(cs[|cs| - 1])
  }

  function ComposeFor(appName: string, stamp: string, all: seq<ChapterView>, r: RecipientView): Composed {
    var vis := Visible(r, all);
    Composed(r.address, SendEmail(r.gate), appName + Segments(stamp, vis), Body(vis))
  }

  function ComposeAll(appName: string, stamp: string, all: seq<ChapterView>, rs: seq<RecipientView>): (q: seq<Composed>)
    ensures |q| == |rs|
    ensures forall i :: 0 <= i < |rs| ==> q[i] == ComposeFor(appName, stamp, all, rs[i])
  {
    if rs == [] then []
    else ComposeAll(appName, stamp, all, rs[..|rs| - 1]) + [ComposeFor(appName, stamp, all, rs[|rs| - 1])]
  }

  // ---------------------------------------------------------------------------
  // Properties of the composition

  /** A recipient is emailed exactly when it has no gating list or some chapter
      of its gating list has non-empty markup. */
  lemma SendEmailIff(appName: string, stamp: string, all: seq<ChapterView>, r: RecipientView)
    ensures ComposeFor(appName, stamp, all, r).sendEmail
        <==> r.gate.None? || exists i :: 0 <= i < |r.gate.value| && r.gate.value[i].html != ""
  {
    if r.gate.Some? {
      AnyNonEmptyIff(r.gate.value);
    }
  }

  /** The entry's address is the recipient's, and its subject starts with the
      application name. */
  lemma ComposeForShape(appName: string, stamp: string, all: seq<ChapterView>, r: RecipientView)
    ensures ComposeFor(appName, stamp, all, r).address == r.address
    ensures appName <= ComposeFor(appName, stamp, all, r).subject
  {
  }

  /** A recipient with a visibility list gets the same entry whatever the
      configured chapters hold: chapters outside its list cannot reach it. */
  lemma RestrictedIgnoresOtherChapters(appName: string, stamp: string, all1: seq<ChapterView>, all2: seq<ChapterView>, r: RecipientView)
    requires r.visible.Some?
    ensures ComposeFor(appName, stamp, all1, r) == ComposeFor(appName, stamp, all2, r)
  {
  }

  /** Subject segments of consecutive lists concatenate, in list order. */
  lemma {:induction false} SegmentsAppend(stamp: string, a: seq<ChapterView>, b: seq<ChapterView>)
    ensures Segments(stamp, a + b) == Segments(stamp, a) + Segments(stamp, b)
    decreases |b|
  {
    if b != [] {
      var b0 := b[..|b| - 1];
      assert (a + b)[..|a + b| - 1] == a + b0;
      assert (a + b)[|a + b| - 1] == b[|b| - 1];
      assert Segments(stamp, a + b) == Segments(stamp, a + b0) + Segment(stamp, b[|b| - 1]);
      SegmentsAppend(stamp, a, b0);
      AppendAssoc(Segments(stamp, a), Segments(stamp, b0), Segment(stamp, b[|b| - 1]));
    } else {
      assert a + b == a;
    }
  }

  /** Body sections of consecutive lists concatenate, in list order. */
  lemma {:induction false} BodyAppend(a: seq<ChapterView>, b: seq<ChapterView>)
    ensures Body(a + b) == Body(a) + Body(b)
    decreases |b|
  {
    if b != [] {
      var b0 := b[..|b| - 1];
      assert (a + b)[..|a + b| - 1] == a + b0;
      assert (a + b)[|a + b| - 1] == b[|b| - 1];
      assert Body(a + b) == Body(a + b0) + Section(b[|b| - 1]);
      BodyAppend(a, b0);
      AppendAssoc(Body(a), Body(b0), Section(b[|b| - 1]));
    } else {
      assert a + b == a;
    }
  }

  /** A chapter with empty markup contributes nothing: dropping it from the
      visible list changes neither subject nor body. */
  lemma EmptyChapterContributesNothing(stamp: string, cs: seq<ChapterView>, i: nat)
    requires i < |cs| && cs[i].html == ""
    ensures Segments(stamp, cs[..i] + cs[i + 1..]) == Segments(stamp, cs)
    ensures Body(cs[..i] + cs[i + 1..]) == Body(cs)
  {
    var pre, mid, post := cs[..i], [cs[i]], cs[i + 1..];
    assert cs == (pre + mid) + post;
    assert mid[..0] == [] && mid[0] == cs[i];
    assert Segment(stamp, cs[i]) == "" && Section(cs[i]) == "";
    assert Segments(stamp, mid) == Segments(stamp, []) + Segment(stamp, cs[i]);
    assert Body(mid) == Body([]) + Section(cs[i]);
    SegmentsAppend(stamp, pre + mid, post);
    SegmentsAppend(stamp, pre, mid);
    SegmentsAppend(stamp, pre, post);
    assert pre + mid + post == cs;
    assert Segments(stamp, pre + mid) == Segments(stamp, pre);
    BodyAppend(pre + mid, post);
    BodyAppend(pre, mid);
    BodyAppend(pre, post);
    assert Body(pre + mid) == Body(pre);
  }

  /** A non-empty counting chapter whose count is zero adds no subject segment
      and no heading, yet its markup is still appended to the body. */
  lemma ZeroCountQuirk(stamp: string, c: ChapterView)
    requires c.html != "" && c.count == Some(0)
    ensures Segment(stamp, c) == ""
    ensures Section(c) == c.html
  {
  }

  /** The chapters of a list that add a subject segment, in order. */
  function WithSegment(cs: seq<ChapterView>): (r: seq<ChapterView>)
    ensures |r| <= |cs|
    ensures forall c :: c in r <==> c in cs && HasSegment(c)
  {
    if cs == [] then []
    else WithSegment(cs[..|cs| - 1]) + (if HasSegment(cs[|cs| - 1]) then [cs[|cs| - 1]] else [])
  }

  /** Chapters without a counter never add a segment. */
  lemma UncountedAddNoSegment(stamp: string, cs: seq<ChapterView>)
    requires forall i :: 0 <= i < |cs| ==> cs[i].count.None?
    ensures Segments(stamp, cs) == ""
    ensures WithSegment(cs) == []
  {
    if cs != [] {
      UncountedAddNoSegment(stamp, cs[..|cs| - 1]);
    }
  }

  /** A segment carries one '|' of its own, if it is there at all. */
  lemma SegmentBars(stamp: string, c: ChapterView)
    requires '|' !in stamp && '|' !in c.name
    ensures multiset(Segment(stamp, c))['|'] == if HasSegment(c) then 1 else 0
  {
    if HasSegment(c) {
      var digits := Decimal.DecimalString(c.count.value);
      assert '|' !in digits;
      assert multiset(" | [")['|'] == 1;
      assert multiset("]: ")['|'] == 0;
      assert multiset(" Time: ")['|'] == 0;
    }
  }

  /** When neither the application name, the time stamp nor a chapter name
      contains '|', the subject holds exactly one '|' per visible, non-empty
      chapter with a positive count: one segment each. */
  lemma {:induction false} SegmentCount(appName: string, stamp: string, cs: seq<ChapterView>)
    requires '|' !in appName && '|' !in stamp
    requires forall i :: 0 <= i < |cs| ==> '|' !in cs[i].name
    ensures multiset(appName + Segments(stamp, cs))['|'] == |WithSegment(cs)|
  {
    if cs != [] {
      var init := cs[..|cs| - 1];
      var c := cs[|cs| - 1];
      SegmentCount(appName, stamp, init);
      SegmentBars(stamp, c);
      AppendAssoc(appName, Segments(stamp, init), Segment(stamp, c));
      assert multiset(appName + Segments(stamp, cs))
          == multiset(appName + Segments(stamp, init)) + multiset(Segment(stamp, c));
    }
  }

  // ---------------------------------------------------------------------------
  // The composition loops of `sendMail`, over the chapters as read when it starts

  /** The gating loop: `sendEmail` becomes true once a gating chapter is non-empty. */
  method GateOpen(gate: seq<ChapterView>) returns (sendEmail: bool)
    ensures sendEmail == AnyNonEmpty(gate)
  {
    sendEmail := false;
    var j := 0;
    while j < |gate|
      invariant 0 <= j <= |gate|
      invariant sendEmail == AnyNonEmpty(gate[..j])
    {
      if gate[j].html != "" {
        sendEmail := true;
      }
      assert gate[..j + 1][..j] == gate[..j];
      j := j + 1;
    }
    assert gate[..j] == gate;
  }

  /** The chapter loop: extends the subject and the body chapter by chapter. */
  method ComposeSections(appName: string, stamp: string, chs: seq<ChapterView>) returns (subject: string, html: string)
    ensures subject == appName + Segments(stamp, chs)
    ensures html == Body(chs)
  {
    subject := appName;
    html := "";
    var k := 0;
    while k < |chs|
      invariant 0 <= k <= |chs|
      invariant subject == appName + Segments(stamp, chs[..k])
      invariant html == Body(chs[..k])
    {
      var chapter := chs[k];
      assert chs[..k + 1][..k] == chs[..k];
      ghost var subject0, html0 := subject, html;
      if chapter.html != "" {
        if chapter.count.Some? {
          if chapter.count.value > 0 {
            subject := subject + SegmentText(chapter.name, chapter.count.value, stamp);
            html := html + HeadingText(chapter.color, chapter.name + ": " + Decimal.DecimalString(chapter.count.value));
          }
        } else {
          html := html + HeadingText(chapter.color, chapter.name);
        }
        assert html == html0 + Heading(chapter);
        html := html + chapter.html;
        AppendAssoc(html0, Heading(chapter), chapter.html);
      }
      assert subject == subject0 + Segment(stamp, chapter);
      assert html == html0 + Section(chapter);
      AppendAssoc(appName, Segments(stamp, chs[..k]), Segment(stamp, chapter));
      assert Segments(stamp, chs[..k + 1]) == Segments(stamp, chs[..k]) + Segment(stamp, chapter);
      assert Body(chs[..k + 1]) == Body(chs[..k]) + Section(chapter);
      k := k + 1;
    }
    assert chs[..k] == chs;
  }

  /** One recipient's entry. */
  method ComposeOne(appName: string, stamp: string, all: seq<ChapterView>, recipient: RecipientView) returns (entry: Composed)
    ensures entry == ComposeFor(appName, stamp, all, recipient)
  {
    var sendEmail := true;
    if recipient.gate.Some? {
      sendEmail := GateOpen(recipient.gate.value);
    }
    var chs := if recipient.visible.Some? then recipient.visible.value else all;
    var subject, html := ComposeSections(appName, stamp, chs);
    entry := Composed(recipient.address, sendEmail, subject, html);
  }

  /** Builds one composed entry per recipient, in recipient order. */
  method ComposeMessages(appName: string, stamp: string, all: seq<ChapterView>, recipients: seq<RecipientView>)
    returns (queue: seq<Composed>)
    ensures queue == ComposeAll(appName, stamp, all, recipients)
  {
    queue := [];
    var i := 0;
    while i < |recipients|
      invariant 0 <= i <= |recipients|
      invariant queue == ComposeAll(appName, stamp, all, recipients[..i])
    {
      var entry := ComposeOne(appName, stamp, all, recipients[i]);
      assert recipients[..i + 1][..i] == recipients[..i];
      queue := queue + [entry];
      i := i + 1;
    }
    assert recipients[..i] == recipients;
  }
}

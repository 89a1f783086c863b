/** The candidate details page: the profile read from the mock server, the
    timeline shown newest first (sorted in place on the fetched record), and
    the note preview that splits the text at `@mentions` and highlights the
    known users. */
module CandidateDetails {
  import opened Common
  import opened Records
  import opened MockServer

  // ---------------------------------------------------------------------
  // Splitting a note at mentions: `text.split(/(@\w+)/g)`

  /** The users a mention can highlight. */
  const MockUsers: seq<string> := ["alice", "bob", "charlie"]

  /** The pattern `@\w+` can start at position `q`. */
  predicate MentionAt(t: string, q: int) {
    0 <= q && q + 1 < |t| && t[q] == '@' && IsWordChar(t[q + 1])
  }

  predicate NoMention(t: string) {
    forall q :: 0 <= q < |t| ==> !MentionAt(t, q)
  }

  /** `@` followed by one or more word characters. */
  predicate IsMention(p: string) {
    |p| >= 2 && p[0] == '@' && forall k :: 1 <= k < |p| ==> IsWordChar(p[k])
  }

  /** The end of the longest run of word characters from `i` (`\w+` is
      greedy). */
  function WordRunEnd(t: string, i: nat): (r: nat)
    requires i <= |t|
    ensures i <= r <= |t|
    ensures forall k :: i <= k < r ==> IsWordChar(t[k])
    ensures r == |t| || !IsWordChar(t[r])
    decreases |t| - i
  {
    if i < |t| && IsWordChar(t[i]) then WordRunEnd(t, i + 1) else i
  }

  /** The leftmost position at or after `from` where a mention starts. */
  function FirstMention(t: string, from: nat): (r: Option<nat>)
    ensures r.Some? ==> from <= r.value && MentionAt(t, r.value)
    ensures r.Some? ==> forall k :: from <= k < r.value ==> !MentionAt(t, k)
    ensures r.None? ==> forall k :: from <= k ==> !MentionAt(t, k)
    decreases |t| - from
  {
    if from + 1 >= |t| then None
    else if MentionAt(t, from) then Some(from)
    else FirstMention(t, from + 1)
  }

  /** The parts of the split: text between mentions at even positions, the
      captured mentions at odd positions. */
  function SplitMentions(t: string): seq<string>
    decreases |t|
  {
    var fm := FirstMention(t, 0);
    if fm.None? then [t]
    else
      var e := WordRunEnd(t, fm.value + 1);
      [t[..fm.value], t[fm.value..e]] + SplitMentions(t[e..])
  }

  function Join(parts: seq<string>): string {
    if parts == [] then "" else parts[0] + Join(parts[1..])
  }

  lemma {:induction false} JoinAppend(a: seq<string>, b: seq<string>)
    ensures Join(a + b) == Join(a) + Join(b)
  {
    if a != [] {
      assert (a + b)[1..] == a[1..] + b;
      JoinAppend(a[1..], b);
    } else {
      assert a + b == b;
    }
  }

  /** Splitting loses and adds nothing: the parts concatenate to the note. */
  lemma {:induction false} SplitJoinsBack(t: string)
    ensures Join(SplitMentions(t)) == t
    decreases |t|
  {
    var fm := FirstMention(t, 0);
    if fm.None? {
      assert SplitMentions(t) == [t];
      assert Join([t]) == t + Join([]);
    } else {
      var q := fm.value;
      var e := WordRunEnd(t, q + 1);
      var rest := SplitMentions(t[e..]);
      assert SplitMentions(t) == [t[..q], t[q..e]] + rest;
      SplitJoinsBack(t[e..]);
      JoinAppend([t[..q], t[q..e]], rest);
      assert Join([t[..q], t[q..e]]) == t[..q] + (t[q..e] + Join([]));
      assert t == t[..q] + t[q..e] + t[e..];
    }
  }

  /** Text before the leftmost mention holds none. */
  lemma PrefixHasNoMention(t: string, q: nat)
    requires q <= |t| && forall k :: 0 <= k < q ==> !MentionAt(t, k)
    ensures NoMention(t[..q])
  {
    forall k | 0 <= k < q
      ensures !MentionAt(t[..q], k)
    {
      assert !MentionAt(t, k);
    }
  }

  /** One step of the split: the text before the leftmost mention holds
      none, and the captured part is a whole mention. */
  lemma SplitStep(t: string, q: nat)
    requires FirstMention(t, 0) == Some(q)
    ensures q + 1 < WordRunEnd(t, q + 1) <= |t|
    ensures SplitMentions(t) == [t[..q], t[q..WordRunEnd(t, q + 1)]] + SplitMentions(t[WordRunEnd(t, q + 1)..])
    ensures NoMention(t[..q])
    ensures IsMention(t[q..WordRunEnd(t, q + 1)])
  {
    PrefixHasNoMention(t, q);
  }

  /** Odd parts are whole mentions; even parts hold none. */
  predicate Alternates(parts: seq<string>) {
    forall i :: 0 <= i < |parts| ==>
      (i % 2 == 1 ==> IsMention(parts[i])) && (i % 2 == 0 ==> NoMention(parts[i]))
  }

  lemma AlternatesCons(a: string, b: string, rest: seq<string>)
    requires NoMention(a) && IsMention(b) && Alternates(rest)
    ensures Alternates([a, b] + rest)
  {
    var parts := [a, b] + rest;
    forall i | 2 <= i < |parts|
      ensures (i % 2 == 1 ==> IsMention(parts[i])) && (i % 2 == 0 ==> NoMention(parts[i]))
    {
      assert parts[i] == rest[i - 2];
      assert (i - 2) % 2 == i % 2;
    }
  }

  /** The split has an odd number of parts; every odd part is a whole
      mention and no even part contains one. */
  lemma {:induction false} SplitShape(t: string)
    ensures |SplitMentions(t)| % 2 == 1
    ensures Alternates(SplitMentions(t))
    decreases |t|
  {
    var fm := FirstMention(t, 0);
    if fm.None? {
      assert SplitMentions(t) == [t];
    } else {
      var q := fm.value;
      var e := WordRunEnd(t, q + 1);
      SplitStep(t, q);
      SplitShape(t[e..]);
      AlternatesCons(t[..q], t[q..e], SplitMentions(t[e..]));
    }
  }

  /** `part.startsWith('@') && MOCK_USERS.includes(part.substring(1))`. */
  predicate Highlighted(part: string) {
    |part| >= 1 && part[0] == '@' && part[1..] in MockUsers
  }

  datatype NotePart = Plain(text: string) | Mention(text: string)

  function RenderParts(parts: seq<string>): seq<NotePart> {
    if parts == [] then []
    else [if Highlighted(parts[0]) then Mention(parts[0]) else Plain(parts[0])] + RenderParts(parts[1..])
  }

  /** `renderNote`. */
  function RenderNote(note: string): seq<NotePart> {
    RenderParts(SplitMentions(note))
  }

  lemma {:induction false} RenderPartsAt(parts: seq<string>)
    ensures |RenderParts(parts)| == |parts|
    ensures forall i :: 0 <= i < |parts| ==>
      RenderParts(parts)[i].text == parts[i] && (RenderParts(parts)[i].Mention? <==> Highlighted(parts[i]))
  {
    if parts != [] {
      RenderPartsAt(parts[1..]);
      assert forall i :: 1 <= i < |parts| ==> parts[i] == parts[1..][i - 1];
    }
  }

  /** The preview shows the note's text in order, and highlights exactly the
      whole mentions of a known user: never a partial name such as
      `@alicex` and never plain text. */
  lemma RenderNoteHighlightsKnownMentions(note: string)
    ensures var r := RenderNote(note);
      (forall i :: 0 <= i < |r| && r[i].Mention? ==>
         i % 2 == 1 && IsMention(r[i].text) && r[i].text[1..] in MockUsers) &&
      (forall i :: 0 <= i < |r| && i % 2 == 1 && Highlighted(r[i].text) ==> r[i].Mention?)
    ensures Join(SplitMentions(note)) == note
  {
    var parts := SplitMentions(note);
    SplitShape(note);
    SplitJoinsBack(note);
    RenderPartsAt(parts);
    forall i | 0 <= i < |parts| && Highlighted(parts[i])
      ensures i % 2 == 1
    {
      HighlightedStartsMention(parts[i]);
    }
  }

  /** A highlighted part starts with a mention. */
  lemma HighlightedStartsMention(p: string)
    requires Highlighted(p)
    ensures MentionAt(p, 0)
  {
    var name := p[1..];
    assert name == "alice" || name == "bob" || name == "charlie";
    assert p[1] == name[0];
  }

  // ---------------------------------------------------------------------
  // The page

  /** The sort key of `(a, b) => new Date(b.date) - new Date(a.date)`:
      the newest entry first. */
  function NewestFirstKey(e: TimelineEntry): int {
    -e.date
  }

  /** The timeline as shown: newest first, the same entries, and showing it
      again changes nothing. */
  lemma TimelineShownNewestFirst(timeline: seq<TimelineEntry>)
    ensures var r := SortByKey(timeline, NewestFirstKey);
      (forall i, j :: 0 <= i < j < |r| ==> r[j].date <= r[i].date) &&
      multiset(r) == multiset(timeline) &&
      SortByKey(r, NewestFirstKey) == r
  {
    var r := SortByKey(timeline, NewestFirstKey);
    SortByKeyProperties(timeline, NewestFirstKey);
    SortedUnchanged(r, NewestFirstKey);
    forall i, j | 0 <= i < j < |r|
      ensures r[j].date <= r[i].date
    {
      assert NewestFirstKey(r[i]) <= NewestFirstKey(r[j]);
    }
  }

  /** What the page shows. */
  datatype View = Loading | NotFoundView | Profile(name: string, email: string, stage: string)

  class DetailsPage {
    var candidate: Option<Candidate>
    var loading: bool

    constructor ()
      ensures candidate == None && loading
      ensures Shown() == Loading
    {
      candidate := None;
      loading := true;
    }

    function Shown(): (v: View)
      reads this
      ensures loading <==> v.Loading?
      ensures !loading && candidate.None? <==> v.NotFoundView?
      ensures v.Profile? ==> candidate.Some? && v == Profile(candidate.value.name, candidate.value.email, candidate.value.stage)
    {
      if loading then Loading
      else if candidate.None? then NotFoundView
      else Profile(candidate.value.name, candidate.value.email, candidate.value.stage)
    }

    /** `fetchCandidate`: a found candidate is shown, a 404 body has no
        candidate, and a failed request keeps what was there; loading ends
        in every case. */
    method FetchCandidate(server: Server, id: Id, reachable: bool)
      modifies this
      ensures !loading
      ensures reachable && server.GetCandidate(id).Found? ==> candidate == Some(server.candidates[id])
      ensures reachable && server.GetCandidate(id).NotFound? ==> candidate == None
      ensures !reachable ==> candidate == old(candidate)
      ensures reachable && id in server.candidates ==>
        Shown() == Profile(server.candidates[id].name, server.candidates[id].email, server.candidates[id].stage)
      ensures reachable && id !in server.candidates ==> Shown() == NotFoundView
      ensures !reachable && old(candidate).None? ==> Shown() == NotFoundView
    {
      if reachable {
        var reply := server.GetCandidate(id);
        match reply
        case Found(c) => candidate := Some(c);
        case NotFound(_) => candidate := None;
      }
      loading := false;
    }

    /** Rendering the timeline sorts the fetched record's own timeline,
        newest first, and shows it. */
    method ShowTimeline() returns (shown: seq<TimelineEntry>)
      requires candidate.Some?
      modifies this
      ensures shown == SortByKey(old(candidate).value.timeline, NewestFirstKey)
      ensures candidate == Some(old(candidate).value.(timeline := shown))
      ensures loading == old(loading)
    {
      var c := candidate.value;
      shown := SortByKey(c.timeline, NewestFirstKey);
      candidate := Some(c.(timeline := shown));
    }
  }
}

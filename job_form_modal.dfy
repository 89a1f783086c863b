/** The create-job dialog: the slug derived from the title, and the submit
    handler that validates the title and calls the jobs controller. */
module JobFormModal {
  import opened Common
  import opened Records
  import opened DexieDB
  import opened JobsContext

  const TitleRequired: string := "Title is required"
  const CreateFallback: string := "Failed to create job"

  // ---------------------------------------------------------------------
  // slugify: lower-case, `/\s+/g` to "-", then drop `/[^\w-]/g`

  /** The end of the run of whitespace starting at `i`. */
  function SpaceRunEnd(s: string, i: nat): (r: nat)
    requires i <= |s|
    ensures i <= r <= |s|
    ensures forall k :: i <= k < r ==> IsSpace(s[k])
    ensures r == |s| || !IsSpace(s[r])
    decreases |s| - i
  {
    if i < |s| && IsSpace(s[i]) then SpaceRunEnd(s, i + 1) else i
  }

  /** Every maximal run of whitespace becomes one `-`. */
  function CollapseSpaces(s: string): string
    decreases |s|
  {
    if s == [] then []
    else if IsSpace(s[0]) then
      var e := SpaceRunEnd(s, 0);
      "-" + CollapseSpaces(s[e..])
    else [s[0]] + CollapseSpaces(s[1..])
  }

  predicate IsSlugChar(c: char) {
    IsWordChar(c) || c == '-'
  }

  /** Drops every character that is neither a word character nor `-`. */
  function KeepSlugChars(s: string): string {
    if s == [] then []
    else (if IsSlugChar(s[0]) then [s[0]] else []) + KeepSlugChars(s[1..])
  }

  function Slugify(title: string): string {
    KeepSlugChars(CollapseSpaces(Lower(title)))
  }

  /** A character a slug can hold: a lower-case letter, a digit, `_` or `-`. */
  predicate IsLowerSlugChar(c: char) {
    'a' <= c <= 'z' || '0' <= c <= '9' || c == '_' || c == '-'
  }

  predicate IsSlug(s: string) {
    forall k :: 0 <= k < |s| ==> IsLowerSlugChar(s[k])
  }

  /** The word characters of `s`, in order. */
  function WordChars(s: string): string {
    if s == [] then [] else (if IsWordChar(s[0]) then [s[0]] else []) + WordChars(s[1..])
  }

  lemma {:induction false} KeepSlugCharsAt(s: string)
    ensures forall k :: 0 <= k < |KeepSlugChars(s)| ==> IsSlugChar(KeepSlugChars(s)[k])
    ensures forall k :: 0 <= k < |KeepSlugChars(s)| ==> KeepSlugChars(s)[k] in s
    ensures WordChars(KeepSlugChars(s)) == WordChars(s)
  {
    if s != [] {
      KeepSlugCharsAt(s[1..]);
      var head := if IsSlugChar(s[0]) then [s[0]] else [];
      WordCharsAppend(head, KeepSlugChars(s[1..]));
      assert KeepSlugChars(s) == head + KeepSlugChars(s[1..]);
      forall k | 0 <= k < |KeepSlugChars(s)|
        ensures KeepSlugChars(s)[k] in s
      {
        if k >= |head| {
          assert KeepSlugChars(s)[k] == KeepSlugChars(s[1..])[k - |head|];
          assert KeepSlugChars(s)[k] in s[1..];
        }
      }
    }
  }

  lemma {:induction false} WordCharsAppend(a: string, b: string)
    ensures WordChars(a + b) == WordChars(a) + WordChars(b)
  {
    if a != [] {
      assert (a + b)[1..] == a[1..] + b;
      WordCharsAppend(a[1..], b);
    } else {
      assert a + b == b;
    }
  }

  lemma {:induction false} CollapseSpacesProperties(s: string)
    ensures forall k :: 0 <= k < |CollapseSpaces(s)| ==> !IsSpace(CollapseSpaces(s)[k])
    ensures forall k :: 0 <= k < |CollapseSpaces(s)| ==> CollapseSpaces(s)[k] == '-' || CollapseSpaces(s)[k] in s
    ensures WordChars(CollapseSpaces(s)) == WordChars(s)
    decreases |s|
  {
    if s == [] {
    } else if IsSpace(s[0]) {
      var e := SpaceRunEnd(s, 0);
      var rest := s[e..];
      CollapseSpacesProperties(rest);
      WordCharsAppend("-", CollapseSpaces(rest));
      assert WordChars(s[..e]) == [] by {
        SpacesHaveNoWordChars(s[..e]);
      }
      assert s == s[..e] + rest;
      WordCharsAppend(s[..e], rest);
      forall k | 0 <= k < |CollapseSpaces(s)|
        ensures !IsSpace(CollapseSpaces(s)[k])
        ensures CollapseSpaces(s)[k] == '-' || CollapseSpaces(s)[k] in s
      {
        if k > 0 {
          assert CollapseSpaces(s)[k] == CollapseSpaces(rest)[k - 1];
          assert CollapseSpaces(rest)[k - 1] == '-' || CollapseSpaces(rest)[k - 1] in rest;
        }
      }
    } else {
      CollapseSpacesProperties(s[1..]);
      WordCharsAppend([s[0]], CollapseSpaces(s[1..]));
      assert s == [s[0]] + s[1..];
      WordCharsAppend([s[0]], s[1..]);
      forall k | 0 <= k < |CollapseSpaces(s)|
        ensures !IsSpace(CollapseSpaces(s)[k])
        ensures CollapseSpaces(s)[k] == '-' || CollapseSpaces(s)[k] in s
      {
        if k > 0 {
          assert CollapseSpaces(s)[k] == CollapseSpaces(s[1..])[k - 1];
          assert CollapseSpaces(s[1..])[k - 1] == '-' || CollapseSpaces(s[1..])[k - 1] in s[1..];
        }
      }
    }
  }

  lemma {:induction false} SpacesHaveNoWordChars(s: string)
    requires forall k :: 0 <= k < |s| ==> IsSpace(s[k])
    ensures WordChars(s) == []
  {
    if s != [] {
      SpacesHaveNoWordChars(s[1..]);
    }
  }

  /** A slug holds only lower-case letters, digits, `_` and `-`, and reading
      its word characters gives the title's word characters, lower-cased and
      in order: whitespace and punctuation are all that is lost. */
  lemma SlugifyProperties(title: string)
    ensures IsSlug(Slugify(title))
    ensures WordChars(Slugify(title)) == WordChars(Lower(title))
  {
    var lowered := Lower(title);
    var collapsed := CollapseSpaces(lowered);
    CollapseSpacesProperties(lowered);
    KeepSlugCharsAt(collapsed);
    var r := Slugify(title);
    forall k | 0 <= k < |r|
      ensures IsLowerSlugChar(r[k])
    {
      assert IsSlugChar(r[k]) && r[k] in collapsed;
      if r[k] != '-' {
        assert r[k] in lowered;
        var j :| 0 <= j < |lowered| && lowered[j] == r[k];
        assert !('A' <= lowered[j] <= 'Z');
      }
    }
  }

  lemma {:induction false} SlugCharsUnchanged(s: string)
    requires IsSlug(s)
    ensures Lower(s) == s && CollapseSpaces(s) == s && KeepSlugChars(s) == s
  {
    if s != [] {
      assert IsSlug(s[1..]) by {
        forall k | 0 <= k < |s[1..]|
          ensures IsLowerSlugChar(s[1..][k])
        {
          assert s[1..][k] == s[k + 1];
        }
      }
      SlugCharsUnchanged(s[1..]);
      assert IsLowerSlugChar(s[0]);
      assert s == [s[0]] + s[1..];
    }
  }

  /** Slugifying a slug changes nothing. */
  lemma SlugifyIdempotent(title: string)
    ensures Slugify(Slugify(title)) == Slugify(title)
  {
    SlugifyProperties(title);
    SlugCharsUnchanged(Slugify(title));
  }

  /** Leading whitespace is not trimmed: it becomes a leading `-`. */
  lemma LeadingSpaceBecomesDash(title: string)
    requires |title| > 0 && IsSpace(title[0])
    ensures |Slugify(title)| > 0 && Slugify(title)[0] == '-'
  {
    var lowered := Lower(title);
    assert IsSpace(lowered[0]);
    var collapsed := CollapseSpaces(lowered);
    assert collapsed == "-" + CollapseSpaces(lowered[SpaceRunEnd(lowered, 0)..]);
    assert KeepSlugChars(collapsed) == "-" + KeepSlugChars(collapsed[1..]);
  }

  /** `\s` and `trim()` take in the Unicode spaces too: a title made of
      no-break, ideographic and line-separator spaces is blank, and a
      no-break space between two words becomes a `-` in the slug. */
  lemma UnicodeSpacesCount()
    ensures Blank("\U{00A0}\U{3000}\U{2028}")
    ensures Slugify("a\U{00A0}b") == "a-b"
  {
    var s := "a\U{00A0}b";
    assert Lower(s) == s;
    assert SpaceRunEnd(s, 1) == 2;
    assert CollapseSpaces(s) == "a" + CollapseSpaces(s[1..]);
    assert CollapseSpaces(s[1..]) == "-" + CollapseSpaces(s[2..]);
  }

  // ---------------------------------------------------------------------
  // The form

  /** `title.trim()` is empty. */
  predicate Blank(s: string) {
    forall k :: 0 <= k < |s| ==> IsSpace(s[k])
  }

  class JobForm {
    var title: string
    var error: string
    /** `onClose` has been called. */
    var closed: bool

    constructor ()
      ensures title == "" && error == "" && !closed
    {
      title := "";
      error := "";
      closed := false;
    }

    method SetTitle(t: string)
      modifies this
      ensures title == t && error == old(error) && closed == old(closed)
    {
      title := t;
    }

    /** `handleSubmit`: a blank title is refused before anything is stored;
        otherwise an active job with the title's slug and no tags is created,
        and the dialog closes and clears on success or shows the error. */
    method HandleSubmit(jobs: JobsController, db: Database, now: int, addOk: bool, readOk: bool)
      returns (r: Option<CreateResult>)
      requires jobs.Valid() && db.Valid()
      modifies this, jobs, db
      ensures jobs.Valid() && db.Valid()
      ensures Blank(old(title)) ==>
        r.None? && error == TitleRequired && title == old(title) && closed == old(closed) &&
        db.tables == old(db.tables) && jobs.state == old(jobs.state) && jobs.dispatched == old(jobs.dispatched)
      ensures !Blank(old(title)) ==> r.Some?
      ensures !Blank(old(title)) && addOk ==>
        r == Some(Created(old(db.tables).nextJobId)) &&
        db.tables == old(db.tables).WithJob(NewJobRecord(JobDraft(old(title), Slugify(old(title)), "active", []), now)) &&
        title == "" && closed && error == ""
      ensures !Blank(old(title)) && !addOk ==>
        r == Some(CreateFailed(CreateError)) && db.tables == old(db.tables) &&
        title == old(title) && closed == old(closed) && error == CreateError
    {
      error := "";
      if Blank(title) {
        error := TitleRequired;
        return None;
      }
      var draft := JobDraft(title, Slugify(title), "active", []);
      var res := jobs.CreateJob(db, draft, now, addOk, readOk);
      r := Some(res);
      match res
      case Created(_) =>
        closed := true;
        title := "";
      case CreateFailed(msg) =>
        error := if msg != "" then msg else CreateFallback;
    }
  }

  /** The job the dialog sends is active, untagged, and its slug is the
      slug of its title; the store ranks it by the clock. */
  lemma SubmittedJobShape(title: string, now: int)
    ensures var n := NewJobRecord(JobDraft(title, Slugify(title), "active", []), now);
      n.title == title && IsSlug(n.slug) && n.slug == Slugify(title) &&
      n.status == "active" && n.tags == [] && n.order == now && n.createdAt.None?
  {
    SlugifyProperties(title);
  }
}

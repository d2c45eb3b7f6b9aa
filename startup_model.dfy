/**
 * The backend's startup record (`startups/models.py`): its stage choices
 * and the `tag_list` property that turns the comma-separated `tags` text
 * into a list of tags.
 */
module StartupRecord {
  import opened Text
  import opened Sequences
  import Types

  /** `STAGE_CHOICES`: stored value and display name. */
  const StageChoices: seq<(string, string)> := [
    ("idea", "Idea"), ("mvp", "MVP"), ("seed", "Seed"), ("series_a", "Series A"),
    ("series_b", "Series B"), ("series_c", "Series C"), ("growth", "Growth"), ("ipo", "IPO")
  ]

  const DefaultStage := "idea"

  /** The stored values of the choices are the frontend's eight stages, in order, and include the default. */
  lemma StageChoicesMatchFrontend()
    ensures |StageChoices| == |Types.Stages|
    ensures forall k :: 0 <= k < |StageChoices| ==> StageChoices[k].0 == Types.Stages[k]
    ensures DefaultStage == StageChoices[0].0
  {
  }

  /** `[tag.strip() for tag in parts if tag.strip()]` */
  function CleanSegments(parts: seq<string>): (tags: seq<string>)
    ensures |tags| <= |parts|
    ensures forall k :: 0 <= k < |tags| ==> tags[k] != "" && NoOuterSpace(tags[k])
  {
    if parts == [] then []
    else (if Trim(parts[0]) != "" then [Trim(parts[0])] else []) + CleanSegments(parts[1..])
  }

  /** Each segment, stripped. */
  function Stripped(parts: seq<string>): (r: seq<string>)
    ensures |r| == |parts| && forall k :: 0 <= k < |parts| ==> r[k] == Trim(parts[k])
  {
    seq(|parts|, k requires 0 <= k < |parts| => Trim(parts[k]))
  }

  /** `tag_list`: empty text gives no tags; otherwise the stripped non-empty comma-separated segments. */
  function TagList(tags: string): (r: seq<string>)
    ensures |r| <= CharCount(tags, ',') + 1
    ensures forall k :: 0 <= k < |r| ==> r[k] != "" && NoOuterSpace(r[k])
  {
    if tags == "" then [] else CleanSegments(Split(tags, ','))
  }

  /** The kept tags are the stripped segments, in their order. */
  lemma {:induction false} CleanIsSubseq(parts: seq<string>)
    ensures IsSubseq(CleanSegments(parts), Stripped(parts))
  {
    if parts != [] {
      var st := Stripped(parts);
      var tail := Stripped(parts[1..]);
      var rest := CleanSegments(parts[1..]);
      CleanIsSubseq(parts[1..]);
      assert IsSubseq(rest, tail);
      assert st[1..] == tail;
      if Trim(parts[0]) == "" {
        assert CleanSegments(parts) == rest;
        SubseqOfTail(rest, st);
      } else {
        var r := CleanSegments(parts);
        assert r == [Trim(parts[0])] + rest;
        assert r[0] == st[0] && r[1..] == rest;
        assert IsSubseq(r[1..], st[1..]);
      }
    }
  }

  /** No non-blank segment is dropped. */
  lemma {:induction false} CleanComplete(parts: seq<string>)
    ensures forall k :: 0 <= k < |parts| && Trim(parts[k]) != "" ==> Trim(parts[k]) in CleanSegments(parts)
  {
    if parts != [] {
      CleanComplete(parts[1..]);
      var rest := CleanSegments(parts[1..]);
      assert CleanSegments(parts) == (if Trim(parts[0]) != "" then [Trim(parts[0])] else []) + rest;
      forall k | 0 <= k < |parts| && Trim(parts[k]) != ""
        ensures Trim(parts[k]) in CleanSegments(parts)
      {
        if k > 0 {
          assert parts[k] == parts[1..][k - 1];
          assert Trim(parts[k]) in rest;
        }
      }
    }
  }

  /** Every non-blank stripped value is kept as often as it occurs among the segments. */
  lemma {:induction false} CleanCount(parts: seq<string>, t: string)
    requires t != ""
    ensures Count(CleanSegments(parts), t) == Count(Stripped(parts), t)
  {
    if parts != [] {
      CleanCount(parts[1..], t);
      var head := if Trim(parts[0]) != "" then [Trim(parts[0])] else [];
      CountAppend(head, CleanSegments(parts[1..]), t);
      assert Stripped(parts)[1..] == Stripped(parts[1..]);
    }
  }

  /** `tag_list` keeps the stripped segments of the text in order and drops only the blank ones. */
  lemma TagListOrder(tags: string)
    requires tags != ""
    ensures IsSubseq(TagList(tags), Stripped(Split(tags, ',')))
    ensures forall k :: 0 <= k < |Split(tags, ',')| && Trim(Split(tags, ',')[k]) != "" ==>
      Trim(Split(tags, ',')[k]) in TagList(tags)
    ensures forall t :: t != "" ==> Count(TagList(tags), t) == Count(Stripped(Split(tags, ',')), t)
  {
    CleanIsSubseq(Split(tags, ','));
    CleanComplete(Split(tags, ','));
    forall t | t != "" ensures Count(TagList(tags), t) == Count(Stripped(Split(tags, ',')), t) {
      CleanCount(Split(tags, ','), t);
    }
  }

  /** Every piece of a split consists of characters of the split text. */
  lemma {:induction false} SplitChars(s: string, sep: char)
    ensures forall p, k :: p in Split(s, sep) && 0 <= k < |p| ==> p[k] in s
  {
    if s != [] {
      SplitChars(s[1..], sep);
      var rest := Split(s[1..], sep);
      forall p, k | p in Split(s, sep) && 0 <= k < |p|
        ensures p[k] in s
      {
        if s[0] == sep {
          assert p in rest;
          assert p[k] in s[1..];
        } else if p == [s[0]] + rest[0] {
          if k > 0 { assert p[k] == rest[0][k - 1]; assert p[k] in s[1..]; }
        } else {
          assert p in rest[1..];
          assert p[k] in s[1..];
        }
      }
    }
  }

  /** Segments that are all whitespace leave nothing. */
  lemma {:induction false} CleanBlank(parts: seq<string>)
    requires forall k :: 0 <= k < |parts| ==> AllSpace(parts[k])
    ensures CleanSegments(parts) == []
  {
    if parts != [] {
      TrimAllSpace(parts[0]);
      CleanBlank(parts[1..]);
    }
  }

  /** A text made only of commas and whitespace has no tags. */
  lemma OnlySeparatorsNoTags(tags: string)
    requires forall k :: 0 <= k < |tags| ==> tags[k] == ',' || IsSpace(tags[k])
    ensures TagList(tags) == []
  {
    if tags != "" {
      var parts := Split(tags, ',');
      SplitChars(tags, ',');
      forall k | 0 <= k < |parts|
        ensures AllSpace(parts[k])
      {
        assert parts[k] in parts;
        forall j | 0 <= j < |parts[k]| ensures IsSpace(parts[k][j]) {
          assert parts[k][j] in tags && parts[k][j] != ',';
        }
      }
      CleanBlank(parts);
    }
  }

  /** A tag as the seed data writes it: non-empty, stripped, without a comma. */
  predicate PlainTag(t: string)
  {
    t != "" && NoOuterSpace(t) && ',' !in t
  }

  /** A padded plain tag with nothing after it is that one tag. */
  lemma LastSegment(pad: string, t: string)
    requires AllSpace(pad) && ',' !in pad && PlainTag(t)
    ensures CleanSegments(Split(pad + t, ',')) == [t]
  {
    TrimPadded(pad, t, []);
    assert pad + t + [] == pad + t;
    assert ',' !in pad + t;
    SplitNone(pad + t, ',');
    assert CleanSegments([pad + t]) == [t] + CleanSegments([]);
  }

  /** A padded plain tag followed by a comma is the first tag, and the rest is parsed on its own. */
  lemma FirstSegment(pad: string, t: string, rest: string)
    requires AllSpace(pad) && ',' !in pad && PlainTag(t)
    ensures CleanSegments(Split(pad + t + [','] + rest, ',')) == [t] + CleanSegments(Split(rest, ','))
  {
    TrimPadded(pad, t, []);
    assert pad + t + [] == pad + t;
    assert ',' !in pad + t;
    SplitCons(pad + t, ',', rest);
    var parts := [pad + t] + Split(rest, ',');
    assert parts[1..] == Split(rest, ',');
  }

  /** A joined list of two or more is its first tag, a comma, and the padded join of the rest. */
  lemma JoinStep(pad: string, tags: seq<string>)
    requires |tags| >= 2
    ensures pad + Join(tags, ", ") == pad + tags[0] + [','] + (" " + Join(tags[1..], ", "))
  {
    var j := Join(tags[1..], ", ");
    assert Join(tags, ", ") == tags[0] + ", " + j;
    CommaThenSpace(pad, tags[0], j);
  }

  /** The separator ", " is a comma followed by the padding of the next tag. */
  lemma CommaThenSpace(pad: string, t: string, j: string)
    ensures pad + (t + ", " + j) == pad + t + [','] + (" " + j)
  {
    assert ", " == [','] + " ";
  }

  /** The padding between joined tags is blank and holds no comma. */
  lemma SeparatorPad()
    ensures AllSpace(" ") && ',' !in " "
  {
    assert IsSpace(" "[0]);
  }

  /** Parsing a padded join of two or more tags gives the first tag, then the parse of the rest. */
  lemma PaddedJoinHead(pad: string, tags: seq<string>)
    requires AllSpace(pad) && ',' !in pad && |tags| >= 2 && PlainTag(tags[0])
    ensures CleanSegments(Split(pad + Join(tags, ", "), ',')) == [tags[0]] + CleanSegments(Split(" " + Join(tags[1..], ", "), ','))
  {
    JoinStep(pad, tags);
    FirstSegment(pad, tags[0], " " + Join(tags[1..], ", "));
  }

  /** A padded join of one tag parses back to that tag. */
  lemma PaddedJoinSingle(pad: string, tags: seq<string>)
    requires AllSpace(pad) && ',' !in pad && |tags| == 1 && PlainTag(tags[0])
    ensures CleanSegments(Split(pad + Join(tags, ", "), ',')) == tags
  {
    assert pad + Join(tags, ", ") == pad + tags[0];
    LastSegment(pad, tags[0]);
  }

  /** The tags after the first are plain when all of them are. */
  lemma PlainTail(tags: seq<string>)
    requires tags != [] && forall k :: 0 <= k < |tags| ==> PlainTag(tags[k])
    ensures forall k :: 0 <= k < |tags[1..]| ==> PlainTag(tags[1..][k])
  {
    forall k | 0 <= k < |tags[1..]| ensures PlainTag(tags[1..][k]) {
      assert tags[1..][k] == tags[k + 1];
    }
  }

  /** Parsing a joined list after leading padding gives the list back. */
  lemma {:induction false} PaddedJoinRoundTrip(pad: string, tags: seq<string>)
    requires AllSpace(pad) && ',' !in pad && tags != []
    requires forall k :: 0 <= k < |tags| ==> PlainTag(tags[k])
    ensures CleanSegments(Split(pad + Join(tags, ", "), ',')) == tags
    decreases |tags|
  {
    if |tags| == 1 {
      PaddedJoinSingle(pad, tags);
    } else {
      PaddedJoinHead(pad, tags);
      SeparatorPad();
      PlainTail(tags);
      var rest := tags[1..];
      var restText := " " + Join(rest, ", ");
      PaddedJoinRoundTrip(" ", rest);
      assert CleanSegments(Split(restText, ',')) == rest;
      assert CleanSegments(Split(pad + Join(tags, ", "), ',')) == [tags[0]] + rest;
      assert tags == [tags[0]] + rest;
    }
  }

  /** `tag_list` reads back the list `', '.join(tags)` was made from. */
  lemma JoinRoundTrip(tags: seq<string>)
    requires forall k :: 0 <= k < |tags| ==> PlainTag(tags[k])
    ensures TagList(Join(tags, ", ")) == tags
  {
    if tags != [] {
      PaddedJoinRoundTrip("", tags);
      assert "" + Join(tags, ", ") == Join(tags, ", ");
      assert Join(tags, ", ") != "" by {
        if |tags| == 1 { } else { assert Join(tags, ", ") == tags[0] + ", " + Join(tags[1..], ", "); }
      }
    }
  }

  /** Stripping adds no character. */
  lemma TrimKeepsAbsent(s: string, c: char)
    requires c !in s
    ensures c !in Trim(s)
  {
    var i, j :| 0 <= i <= j <= |s| && Trim(s) == s[i..j] && AllSpace(s[..i]) && AllSpace(s[j..]);
    assert forall k :: 0 <= k < |Trim(s)| ==> Trim(s)[k] == s[i + k];
  }

  /** Clean segments of comma-free pieces are comma-free. */
  lemma {:induction false} CleanNoComma(parts: seq<string>)
    requires forall p :: p in parts ==> ',' !in p
    ensures forall k :: 0 <= k < |CleanSegments(parts)| ==> ',' !in CleanSegments(parts)[k]
  {
    if parts != [] {
      assert parts[0] in parts;
      TrimKeepsAbsent(parts[0], ',');
      assert forall p :: p in parts[1..] ==> p in parts;
      CleanNoComma(parts[1..]);
      var rest := CleanSegments(parts[1..]);
      var r := CleanSegments(parts);
      assert r == (if Trim(parts[0]) != "" then [Trim(parts[0])] else []) + rest;
    }
  }

  /** Every tag of `tag_list` is a plain tag. */
  lemma TagListPlain(tags: string)
    ensures forall k :: 0 <= k < |TagList(tags)| ==> PlainTag(TagList(tags)[k])
  {
    if tags != "" { CleanNoComma(Split(tags, ',')); }
  }

  /** Joining a tag list with `', '`, as the export does, and parsing it again gives the same tags. */
  lemma TagListStable(tags: string)
    ensures TagList(Join(TagList(tags), ", ")) == TagList(tags)
  {
    TagListPlain(tags);
    JoinRoundTrip(TagList(tags));
  }

  /** Empty text has no tags. */
  lemma EmptyTagsNoTags()
    ensures TagList("") == []
  {
  }
}

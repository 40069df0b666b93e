/**
  The caption stream's search box (client/src/components/caption-timeline.tsx):
  a case-insensitive substring filter over caption text and camera name, and
  the text shown when nothing is left.
 */
module CaptionTimeline {
  import opened Schema
  import opened Text
  import Seqs

  /** A caption matches when its text or its camera's name includes the search, ignoring case. */
  predicate Matches(search: string, c: Caption) {
    Contains(Lower(c.caption), Lower(search)) || Contains(Lower(c.cameraName), Lower(search))
  }

  /** `Matches` for a fixed search, as the filter callback. */
  function MatcherFor(search: string): Caption -> bool {
    c => Matches(search, c)
  }

  /** The captions listed for `search`, in the order they were given. */
  function Visible(captions: seq<Caption>, search: string): (r: seq<Caption>)
    ensures |r| == |Seqs.IndicesWhere(captions, MatcherFor(search))|
    ensures Seqs.IsSubsequence(r, captions)
    ensures forall i :: 0 <= i < |r| ==> r[i] in captions && Matches(search, r[i])
    ensures forall i :: 0 <= i < |captions| && Matches(search, captions[i]) ==> captions[i] in r
  {
    Seqs.Filter(captions, MatcherFor(search))
  }

  /** With an empty search box every caption is listed. */
  lemma EmptySearchShowsAll(captions: seq<Caption>)
    ensures Visible(captions, "") == captions
  {
    forall i | 0 <= i < |captions|
      ensures Matches("", captions[i])
    {
      ContainsEmpty(Lower(captions[i].caption));
    }
    Seqs.FilterAll(captions, c => Matches("", c));
  }

  /** Searching ignores the case of the search text. */
  lemma SearchIgnoresCase(captions: seq<Caption>, search: string)
    ensures Visible(captions, search) == Visible(captions, Lower(search))
  {
    LowerIdempotent(search);
    Seqs.FilterSamePredicate(captions, MatcherFor(search), MatcherFor(Lower(search)));
  }

  /** Typing more characters only narrows the list: a caption shown for the longer search is shown for the shorter one. */
  lemma LongerSearchNarrows(captions: seq<Caption>, search: string, more: string, c: Caption)
    requires c in Visible(captions, search + more)
    ensures c in Visible(captions, search)
  {
    var r := Visible(captions, search + more);
    var k :| 0 <= k < |r| && r[k] == c;
    assert Matches(search + more, c);
    LowerConcat(search, more);
    if Contains(Lower(c.caption), Lower(search + more)) {
      ContainsExtension(Lower(c.caption), Lower(search), Lower(more));
    } else {
      ContainsExtension(Lower(c.cameraName), Lower(search), Lower(more));
    }
    var j :| 0 <= j < |captions| && captions[j] == c;
  }

  /**
    The placeholder under the search box: shown only when nothing is listed,
    naming the search when there is one.
   */
  function EmptyState(captions: seq<Caption>, search: string): (r: string)
    ensures r == "" <==> |Visible(captions, search)| > 0
    ensures r != "" && search != "" ==> r == "No captions match your search"
    ensures r != "" && search == "" ==> r == "No captions yet" && |captions| == 0
  {
    if |Visible(captions, search)| > 0 then ""
    else if search != "" then "No captions match your search"
    else
      EmptySearchShowsAll(captions);
      "No captions yet"
  }
}

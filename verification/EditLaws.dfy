/** Which file gets which edit (src/managed_block.rs:116-183), told from what the file holds. */
module EditLaws {
  import opened Prelude
  import opened ManagedBlock

  /** Exactly one well-formed block, and whether it is small enough to touch. */
  ghost predicate HasBlock(spec: Spec, content: string) { exists p: nat, e: nat :: OneBlock(spec, content, p, e) }

  ghost predicate HasSmallBlock(spec: Spec, content: string) {
    exists p: nat, e: nat :: OneBlock(spec, content, p, e) && e + |spec.end| - p <= spec.maxBlockBytes
  }

  /** The bytes of the block are those that would be written for this file. */
  ghost predicate HasRightBlock(spec: Spec, content: string) {
    exists p: nat, e: nat :: OneBlock(spec, content, p, e) && RightAt(spec, content, p, e)
  }

  predicate RightAt(spec: Spec, content: string, p: nat, e: nat) {
    && e + |spec.end| - p <= spec.maxBlockBytes
    && p <= e + |spec.end| <= |content|
    && content[p..e + |spec.end|] == spec.render(DetectEol(content))
  }

  /** A file that needs no block, or has the right one. */
  ghost predicate IsSettled(spec: Spec, content: string) {
    || (Unmarked(spec, content) && !spec.legacy(content) && spec.pointing(content))
    || HasRightBlock(spec, content)
  }

  ghost predicate Refused(spec: Spec, current: File) {
    current.NotText? || (current.Text? && !Unmarked(spec, current.content) && !HasSmallBlock(spec, current.content))
  }

  lemma BlockIsMarked(spec: Spec, content: string, p: nat, e: nat)
    requires MarkersOk(spec) && OneBlock(spec, content, p, e)
    ensures !Unmarked(spec, content)
  {
    hide Standalone, Only;
  }

  lemma OneBlockOnly(spec: Spec, content: string, p: nat, e: nat)
    requires OneBlock(spec, content, p, e)
    ensures HasBlock(spec, content)
    ensures HasSmallBlock(spec, content) <==> e + |spec.end| - p <= spec.maxBlockBytes
    ensures HasRightBlock(spec, content) <==> RightAt(spec, content, p, e)
  {
    hide OneBlock, RightAt, Occurs;
    forall p': nat, e': nat | OneBlock(spec, content, p', e') ensures p' == p && e' == e {
      OneBlockIsUnique(spec, content, p, e, p', e');
    }
  }

  /** The edit of a file with a well-formed block. */
  lemma BlockDecides(spec: Spec, content: string, p: nat, e: nat)
    requires MarkersOk(spec) && OneBlock(spec, content, p, e)
    ensures var edit := PlanBlockEdit(spec, Text(content));
            && !Unmarked(spec, content) && HasBlock(spec, content)
            && (!HasSmallBlock(spec, content) ==> edit.action == Conflict && edit.reason == TooLarge)
            && (HasRightBlock(spec, content) ==> HasSmallBlock(spec, content) && edit.action == Noop)
            && (HasSmallBlock(spec, content) && !HasRightBlock(spec, content) ==> edit.action == Update && edit.reason == Replace)
  {
    hide OneBlock, PlanBlockEdit, HasSmallBlock, HasRightBlock, HasBlock, Unmarked, DetectEol, Occurs, Standalone, MarkersOk;
    BlockIsReplaced(spec, content, p, e);
    BlockIsMarked(spec, content, p, e);
    OneBlockOnly(spec, content, p, e);
  }

  /** The edit of a file with markers that make up no block. */
  lemma MalformedDecides(spec: Spec, content: string)
    requires MarkersOk(spec) && !Unmarked(spec, content) && !HasBlock(spec, content)
    ensures PlanBlockEdit(spec, Text(content)) == Conflicted(MalformedMarkers)
    ensures !HasSmallBlock(spec, content) && !HasRightBlock(spec, content)
  {
    hide MatchIndices, OneBlock, Present, Only, Occurs, DetectEol, NewlineFree, Standalone;
    AbsentIsNotFound(content, spec.start);
    AbsentIsNotFound(content, spec.end);
    var starts := MatchIndices(content, spec.start, 0);
    var ends := MatchIndices(content, spec.end, 0);
    if |starts| == 1 && |ends| == 1 && starts[0] < ends[0]
       && Standalone(content, starts[0], spec.start) && Standalone(content, ends[0], spec.end) {
      BlockFound(spec, content, starts[0], ends[0]);
    }
  }

  /** The edit of a file without markers. */
  lemma UnmarkedDecides(spec: Spec, content: string)
    requires MarkersOk(spec) && Unmarked(spec, content)
    ensures var edit := PlanBlockEdit(spec, Text(content));
            && !HasBlock(spec, content) && !HasSmallBlock(spec, content) && !HasRightBlock(spec, content)
            && edit.action == (if spec.legacy(content) then Migrate else if spec.pointing(content) then Noop else Update)
            && edit.reason == (if spec.legacy(content) then Legacy else if spec.pointing(content) then Exact else Append)
  {
    hide MatchIndices, Present, Separator, DetectEol, OneBlock, NewlineFree;
    AbsentIsNotFound(content, spec.start);
    AbsentIsNotFound(content, spec.end);
    forall p: nat, e: nat ensures !OneBlock(spec, content, p, e) {
      if OneBlock(spec, content, p, e) { BlockIsMarked(spec, content, p, e); }
    }
  }

  /** What a file holds decides the action, case by case. */
  lemma FileDecidesAction(spec: Spec, current: File)
    requires MarkersOk(spec)
    ensures var action := PlanBlockEdit(spec, current).action;
            && (action == Create <==> current.Absent?)
            && (action == Migrate <==> current.Text? && Unmarked(spec, current.content) && spec.legacy(current.content))
            && (action == Noop <==> current.Text? && IsSettled(spec, current.content))
            && (action == Conflict <==> Refused(spec, current))
  {
    hide OneBlock, HasSmallBlock, HasRightBlock, Unmarked, MatchIndices, DetectEol, Separator, MarkersOk;
    if current.Text? {
      hide PlanBlockEdit;
      var content := current.content;
      if Unmarked(spec, content) {
        UnmarkedDecides(spec, content);
      } else if p: nat, e: nat :| OneBlock(spec, content, p, e) {
        BlockDecides(spec, content, p, e);
      } else {
        MalformedDecides(spec, content);
      }
    }
  }

  /** Why an edit is refused, and that a refused or settled file is left as it is. */
  lemma FileDecidesReason(spec: Spec, current: File)
    requires MarkersOk(spec)
    ensures var reason := PlanBlockEdit(spec, current).reason;
            && (reason == NoFile <==> current.Absent?)
            && (reason == InvalidEncoding <==> current.NotText?)
            && (reason == MalformedMarkers <==>
                  current.Text? && !Unmarked(spec, current.content) && !HasBlock(spec, current.content))
            && (reason == TooLarge <==>
                  current.Text? && HasBlock(spec, current.content) && !HasSmallBlock(spec, current.content))
    ensures Refused(spec, current) || (current.Text? && IsSettled(spec, current.content)) ==>
              Applied(spec, current) == current
  {
    hide OneBlock, HasSmallBlock, HasRightBlock, Unmarked, MatchIndices, DetectEol, Separator, MarkersOk;
    FileDecidesAction(spec, current);
    if current.Text? {
      hide PlanBlockEdit, IsSettled;
      var content := current.content;
      if Unmarked(spec, content) {
        UnmarkedDecides(spec, content);
      } else if p: nat, e: nat :| OneBlock(spec, content, p, e) {
        BlockDecides(spec, content, p, e);
      } else {
        MalformedDecides(spec, content);
      }
    }
  }

  /** A file that is not there is made of the block alone, on lines of its own. */
  lemma AbsentIsCreated(spec: Spec)
    requires SpecOk(spec)
    ensures Applied(spec, Absent) == Text(spec.render("\n") + "\n")
    ensures OneBlock(spec, spec.render("\n") + "\n", 0, |spec.render("\n")| - |spec.end|)
  {
    hide Only, Occurs, Standalone, HasCrLf;
    var r := spec.render(LF);
    assert "" + r + LF == r + LF;
    BreaksHoldNothing("", spec.start);
    BreaksHoldNothing("", spec.end);
    BreaksHoldNothing(LF, spec.start);
    BreaksHoldNothing(LF, spec.end);
    PlantedIsOneBlock(spec, "", r, LF);
  }

  /** A marker stands alone iff the text before it ends a line and the text behind it starts one. */
  lemma StandsAlone(content: string, index: nat, marker: string)
    requires index + |marker| <= |content|
    ensures Standalone(content, index, marker) <==>
            EndsLine(content[..index]) && StartsLine(content[index + |marker|..])
  {
  }

  /** An appended block comes behind exactly one blank line, or first in an empty file. */
  lemma BehindABlankLine(content: string, eol: string)
    requires IsEol(eol)
    ensures var sep := Separator(content, eol);
            && (content == "" ==> sep == "")
            && (content != "" && EndsLine(content) ==> sep == eol)
            && (content != "" && !EndsLine(content) ==> sep == eol + eol)
  {
  }
}

/** The identifier and label normalisers of saves/save_manager.py (lines 74-104). */
module Identifiers {
  import opened Chars
  import opened Text
  import opened Outcome

  /** Longest annotation kept by `NormalizeAiBlip`. */
  const BlipLimit: nat := 20
  /** Longest file-name piece kept by `NormalizeFilenamePiece`. */
  const PieceLimit: nat := 32

  /** A character that survives campaign-id cleaning and is not trimmed at an edge. */
  predicate IsCampaignSubstance(c: char) {
    !IsSpace(c) && !IsInvalidWinChar(c) && !IsDotOrUnderscore(c)
  }

  predicate IsCampaignJunk(c: char) {
    !IsCampaignSubstance(c)
  }

  predicate IsInvalidOrEdge(c: char) {
    IsInvalidWinChar(c) || IsDotOrUnderscore(c)
  }

  predicate IsNotSpace(c: char) {
    !IsSpace(c)
  }

  predicate IsNotInvalid(c: char) {
    !IsInvalidWinChar(c)
  }

  predicate IsNotSnapshotChar(c: char) {
    !IsSnapshotChar(c)
  }

  /** A character that survives snapshot-id cleaning and is not trimmed at an edge. */
  predicate IsSnapshotSubstance(c: char) {
    IsAsciiAlnum(c) || c == '-'
  }

  predicate IsNotSnapshotSubstance(c: char) {
    !IsSnapshotSubstance(c)
  }

  predicate IsNotPieceChar(c: char) {
    !IsPieceChar(c)
  }

  /** The shape every campaign id the archive uses has. */
  predicate ValidCampaignId(s: string) {
    && s != []
    && NoneOf(s, IsSpace)
    && NoneOf(s, IsInvalidWinChar)
    && !IsDotOrUnderscore(s[0]) && !IsDotOrUnderscore(s[|s| - 1])
  }

  /** The shape every explicit snapshot id has. */
  predicate ValidSnapshotId(s: string) {
    && s != []
    && All(s, IsSnapshotChar)
    && s[0] != '_' && s[|s| - 1] != '_'
  }

  /** Campaign-id cleaning before the emptiness check: whitespace runs become `_`,
      forbidden characters go, and `.`/`_` are trimmed at both ends. */
  function CleanCampaignId(value: string): string {
    var text := CollapseRuns(Strip(value, IsSpace), IsSpace, "_");
    Strip(RemoveAll(text, IsInvalidWinChar), IsDotOrUnderscore)
  }

  /** `normalize_campaign_id`: a cleaned id, or `EmptyIdentifier` when cleaning leaves
      nothing, which happens exactly when the input has no character other than
      whitespace, forbidden characters, dots and underscores. */
  function NormalizeCampaignId(value: string): (r: Result<string>)
    ensures r.Ok? ==> ValidCampaignId(r.value)
    ensures r.Err? <==> NoneOf(value, IsCampaignSubstance)
    ensures r.Err? ==> r.error == EmptyIdentifier
  {
    CampaignCleanShape(value);
    CampaignCleanIff(value);
    var text := CleanCampaignId(value);
    if text == [] then Err(EmptyIdentifier) else Ok(text)
  }

  lemma CampaignCleanShape(value: string)
    ensures CleanCampaignId(value) != [] ==> ValidCampaignId(CleanCampaignId(value))
  {
    var stripped := Strip(value, IsSpace);
    var text := CollapseRuns(stripped, IsSpace, "_");
    var kept := RemoveAll(text, IsInvalidWinChar);
    SpacesCollapsed(stripped);
    InvalidRemoved(text);
    StripAll(kept, IsDotOrUnderscore, IsNotSpace);
    StripAll(kept, IsDotOrUnderscore, IsNotInvalid);
    CampaignShape(Strip(kept, IsDotOrUnderscore));
  }

  lemma SpacesCollapsed(s: string)
    ensures All(CollapseRuns(s, IsSpace, "_"), IsNotSpace)
  {
    CollapseRunsAll(s, IsSpace, "_", IsNotSpace);
  }

  lemma InvalidRemoved(s: string)
    requires All(s, IsNotSpace)
    ensures All(RemoveAll(s, IsInvalidWinChar), IsNotSpace)
    ensures All(RemoveAll(s, IsInvalidWinChar), IsNotInvalid)
  {
    RemoveAllAll(s, IsInvalidWinChar, IsNotSpace);
    RemoveAllAll(s, IsInvalidWinChar, IsNotInvalid);
  }

  lemma CampaignShape(r: string)
    requires All(r, IsNotSpace) && All(r, IsNotInvalid)
    requires r == [] || (!IsDotOrUnderscore(r[0]) && !IsDotOrUnderscore(r[|r| - 1]))
    ensures r != [] ==> ValidCampaignId(r)
  {
  }

  lemma CampaignCleanIff(value: string)
    ensures CleanCampaignId(value) == [] <==> NoneOf(value, IsCampaignSubstance)
  {
    if NoneOf(value, IsCampaignSubstance) {
      CampaignCleanEmpty(value);
    } else {
      CampaignCleanKeeps(value);
    }
  }

  lemma CampaignCleanEmpty(value: string)
    requires NoneOf(value, IsCampaignSubstance)
    ensures CleanCampaignId(value) == []
  {
    var stripped := Strip(value, IsSpace);
    var text := CollapseRuns(stripped, IsSpace, "_");
    var kept := RemoveAll(text, IsInvalidWinChar);
    assert All(value, IsCampaignJunk);
    StripAll(value, IsSpace, IsCampaignJunk);
    CollapseRunsAll(stripped, IsSpace, "_", IsInvalidOrEdge);
    RemoveAllAll(text, IsInvalidWinChar, IsDotOrUnderscore);
    StripEmpty(kept, IsDotOrUnderscore);
  }

  lemma CampaignCleanKeeps(value: string)
    requires !NoneOf(value, IsCampaignSubstance)
    ensures CleanCampaignId(value) != []
  {
    var stripped := Strip(value, IsSpace);
    var text := CollapseRuns(stripped, IsSpace, "_");
    var kept := RemoveAll(text, IsInvalidWinChar);
    var i :| 0 <= i < |value| && IsCampaignSubstance(value[i]);
    var c := value[i];
    StripKeeps(value, IsSpace, c);
    CollapseRunsKeeps(stripped, IsSpace, "_", c);
    RemoveAllKeeps(text, IsInvalidWinChar, c);
    StripKeeps(kept, IsDotOrUnderscore, c);
  }

  /** Snapshot-id cleaning before the emptiness check. */
  function CleanSnapshotId(value: string): string {
    var text := ReplaceEach(Strip(value, IsSpace), IsInvalidWinChar, '_');
    Strip(ReplaceEach(text, IsNotSnapshotChar, '_'), IsDotOrUnderscore)
  }

  /** `normalize_snapshot_id`: an absent or empty id takes the clock's `stamp`
      (`YYYYMMDD_HHMMSS`); any other id is cleaned down to `[0-9A-Za-z_-]` and fails
      with `EmptyIdentifier` exactly when it holds no ASCII letter, digit or `-`. */
  function NormalizeSnapshotId(value: Option<string>, stamp: string): (r: Result<string>)
    ensures value == None || value == Some("") ==> r == Ok(stamp)
    ensures value.Some? && value.value != "" ==>
      (r.Err? <==> NoneOf(value.value, IsSnapshotSubstance))
    ensures value.Some? && value.value != "" && r.Ok? ==> ValidSnapshotId(r.value)
    ensures r.Err? ==> r.error == EmptyIdentifier
  {
    if value == None || value == Some("") then Ok(stamp)
    else
      SnapshotCleanShape(value.value);
      SnapshotCleanIff(value.value);
      var text := CleanSnapshotId(value.value);
      if text == [] then Err(EmptyIdentifier) else Ok(text)
  }

  lemma SnapshotCleanShape(value: string)
    ensures All(CleanSnapshotId(value), IsSnapshotChar)
    ensures CleanSnapshotId(value) != [] ==> ValidSnapshotId(CleanSnapshotId(value))
  {
    var text := ReplaceEach(Strip(value, IsSpace), IsInvalidWinChar, '_');
    var mapped := ReplaceEach(text, IsNotSnapshotChar, '_');
    assert All(mapped, IsSnapshotChar);
    StripAll(mapped, IsDotOrUnderscore, IsSnapshotChar);
  }

  lemma SnapshotCleanIff(value: string)
    ensures CleanSnapshotId(value) == [] <==> NoneOf(value, IsSnapshotSubstance)
  {
    if NoneOf(value, IsSnapshotSubstance) {
      SnapshotCleanEmpty(value);
    } else {
      SnapshotCleanKeeps(value);
    }
  }

  lemma SnapshotCleanEmpty(value: string)
    requires NoneOf(value, IsSnapshotSubstance)
    ensures CleanSnapshotId(value) == []
  {
    var stripped := Strip(value, IsSpace);
    var text := ReplaceEach(stripped, IsInvalidWinChar, '_');
    var mapped := ReplaceEach(text, IsNotSnapshotChar, '_');
    assert All(value, IsNotSnapshotSubstance);
    StripAll(value, IsSpace, IsNotSnapshotSubstance);
    assert All(mapped, IsDotOrUnderscore);
    StripEmpty(mapped, IsDotOrUnderscore);
  }

  lemma SnapshotSubstanceSurvives(c: char)
    requires IsSnapshotSubstance(c)
    ensures !IsSpace(c) && !IsInvalidWinChar(c) && IsSnapshotChar(c) && !IsDotOrUnderscore(c)
  {
  }

  lemma SnapshotCleanKeeps(value: string)
    requires !NoneOf(value, IsSnapshotSubstance)
    ensures CleanSnapshotId(value) != []
  {
    var stripped := Strip(value, IsSpace);
    var text := ReplaceEach(stripped, IsInvalidWinChar, '_');
    var mapped := ReplaceEach(text, IsNotSnapshotChar, '_');
    var i :| 0 <= i < |value| && IsSnapshotSubstance(value[i]);
    var c := value[i];
    SnapshotSubstanceSurvives(c);
    StripKeeps(value, IsSpace, c);
    ReplaceEachKeeps(stripped, IsInvalidWinChar, '_', c);
    ReplaceEachKeeps(text, IsNotSnapshotChar, '_', c);
    StripKeeps(mapped, IsDotOrUnderscore, c);
  }

  /** `normalize_ai_blip`: whitespace runs become one space, the ends are trimmed, and
      at most twenty characters are kept. */
  function NormalizeAiBlip(value: string): (r: string)
    ensures |r| <= BlipLimit
    ensures NoAdjacent(r, IsSpace)
    ensures r == [] || !IsSpace(r[0])
    ensures r == [] <==> All(value, IsSpace)
  {
    BlipClean(value);
    Take(CollapseRuns(Strip(value, IsSpace), IsSpace, " "), BlipLimit)
  }

  lemma BlipClean(value: string)
    ensures var r := Take(CollapseRuns(Strip(value, IsSpace), IsSpace, " "), BlipLimit);
      && NoAdjacent(r, IsSpace)
      && (r == [] || !IsSpace(r[0]))
      && (r == [] <==> All(value, IsSpace))
  {
    var stripped := Strip(value, IsSpace);
    var text := CollapseRuns(stripped, IsSpace, " ");
    CollapseRunsNoAdjacent(stripped, IsSpace, ' ');
    NoAdjacentSlice(text, IsSpace, 0, |Take(text, BlipLimit)|);
    StripEmpty(value, IsSpace);
    CollapseRunsEmpty(stripped, IsSpace, " ");
    if stripped != [] {
      CollapseRunsHead(stripped, IsSpace, " ");
    }
  }

  /** File-name piece cleaning before the fallback check. */
  function CleanPiece(value: string): string {
    var text := RemoveAll(Strip(value, IsSpace), IsInvalidWinChar);
    var text2 := CollapseRuns(text, IsSpace, "_");
    var text3 := CollapseRuns(text2, IsNotPieceChar, "_");
    Strip(CollapseRuns(text3, IsUnderscore, "_"), IsDotOrUnderscore)
  }

  /** A character that survives file-name piece cleaning. */
  predicate IsPieceSubstance(c: char) {
    IsPieceChar(c) && c != '_'
  }

  predicate IsNotPieceSubstance(c: char) {
    !IsPieceSubstance(c)
  }

  /** `normalize_filename_piece`: the `fallback` exactly when the value holds no word
      character (other than `_`), CJK ideograph, `+` or `-`; otherwise a non-empty piece
      of at most 32 such characters and single underscores, not starting with `_`. */
  function NormalizeFilenamePiece(value: string, fallback: string): (r: string)
    ensures NoneOf(value, IsPieceSubstance) ==> r == fallback
    ensures !NoneOf(value, IsPieceSubstance) ==>
      && 0 < |r| <= PieceLimit
      && All(r, IsPieceChar)
      && NoneOf(r, IsInvalidWinChar)
      && NoAdjacent(r, IsUnderscore)
      && r[0] != '_'
  {
    PieceCleanShape(value);
    PieceCleanIff(value);
    var text := CleanPiece(value);
    if text == [] then fallback
    else
      TakePiece(text);
      Take(text, PieceLimit)
  }

  /** Cutting a clean piece to its first 32 characters keeps it clean. */
  lemma TakePiece(text: string)
    requires text != [] && text[0] != '_'
    requires All(text, IsPieceChar) && NoAdjacent(text, IsUnderscore)
    ensures var r := Take(text, PieceLimit);
      && 0 < |r| <= PieceLimit
      && All(r, IsPieceChar)
      && NoneOf(r, IsInvalidWinChar)
      && NoAdjacent(r, IsUnderscore)
      && r[0] != '_'
  {
    var r := Take(text, PieceLimit);
    AllSlice(text, IsPieceChar, 0, |r|);
    NoAdjacentSlice(text, IsUnderscore, 0, |r|);
    forall i | 0 <= i < |r|
      ensures !IsInvalidWinChar(r[i])
    {
      InvalidWinCharsAreNotPieceChars(r[i]);
    }
  }

  lemma PieceCleanShape(value: string)
    ensures All(CleanPiece(value), IsPieceChar)
    ensures NoAdjacent(CleanPiece(value), IsUnderscore)
    ensures CleanPiece(value) == [] || CleanPiece(value)[0] != '_'
  {
    var text := RemoveAll(Strip(value, IsSpace), IsInvalidWinChar);
    var text2 := CollapseRuns(text, IsSpace, "_");
    var text3 := CollapseRuns(text2, IsNotPieceChar, "_");
    var text4 := CollapseRuns(text3, IsUnderscore, "_");
    CollapseRunsAll(text2, IsNotPieceChar, "_", IsPieceChar);
    CollapseRunsAll(text3, IsUnderscore, "_", IsPieceChar);
    StripAll(text4, IsDotOrUnderscore, IsPieceChar);
    CollapseRunsNoAdjacent(text3, IsUnderscore, '_');
    StripNoAdjacent(text4, IsDotOrUnderscore, IsUnderscore);
  }

  lemma PieceCleanIff(value: string)
    ensures CleanPiece(value) == [] <==> NoneOf(value, IsPieceSubstance)
  {
    if NoneOf(value, IsPieceSubstance) {
      PieceCleanEmpty(value);
    } else {
      PieceCleanKeeps(value);
    }
  }

  lemma PieceCleanEmpty(value: string)
    requires NoneOf(value, IsPieceSubstance)
    ensures CleanPiece(value) == []
  {
    var stripped := Strip(value, IsSpace);
    var text := RemoveAll(stripped, IsInvalidWinChar);
    var text2 := CollapseRuns(text, IsSpace, "_");
    var text3 := CollapseRuns(text2, IsNotPieceChar, "_");
    var text4 := CollapseRuns(text3, IsUnderscore, "_");
    assert All(value, IsNotPieceSubstance);
    StripAll(value, IsSpace, IsNotPieceSubstance);
    JunkRemoved(stripped);
    JunkSpacesCollapsed(text);
    JunkNonPieceCollapsed(text2);
    UnderscoresCollapsed(text3);
    StripEmpty(text4, IsDotOrUnderscore);
  }

  lemma JunkRemoved(s: string)
    requires All(s, IsNotPieceSubstance)
    ensures All(RemoveAll(s, IsInvalidWinChar), IsNotPieceSubstance)
  {
    RemoveAllAll(s, IsInvalidWinChar, IsNotPieceSubstance);
  }

  lemma JunkSpacesCollapsed(s: string)
    requires All(s, IsNotPieceSubstance)
    ensures All(CollapseRuns(s, IsSpace, "_"), IsNotPieceSubstance)
  {
    CollapseRunsAll(s, IsSpace, "_", IsNotPieceSubstance);
  }

  lemma JunkNonPieceCollapsed(s: string)
    requires All(s, IsNotPieceSubstance)
    ensures All(CollapseRuns(s, IsNotPieceChar, "_"), IsUnderscore)
  {
    forall i | 0 <= i < |s| && !IsNotPieceChar(s[i])
      ensures IsUnderscore(s[i])
    {
    }
    CollapseRunsAll(s, IsNotPieceChar, "_", IsUnderscore);
  }

  lemma UnderscoresCollapsed(s: string)
    requires All(s, IsUnderscore)
    ensures All(CollapseRuns(s, IsUnderscore, "_"), IsDotOrUnderscore)
  {
    CollapseRunsAll(s, IsUnderscore, "_", IsDotOrUnderscore);
  }

  lemma PieceSubstanceSurvives(c: char)
    requires IsPieceSubstance(c)
    ensures !IsSpace(c) && !IsInvalidWinChar(c) && IsPieceChar(c) && !IsUnderscore(c) && !IsDotOrUnderscore(c)
  {
  }

  lemma PieceCleanKeeps(value: string)
    requires !NoneOf(value, IsPieceSubstance)
    ensures CleanPiece(value) != []
  {
    var stripped := Strip(value, IsSpace);
    var text := RemoveAll(stripped, IsInvalidWinChar);
    var text2 := CollapseRuns(text, IsSpace, "_");
    var text3 := CollapseRuns(text2, IsNotPieceChar, "_");
    var text4 := CollapseRuns(text3, IsUnderscore, "_");
    var i :| 0 <= i < |value| && IsPieceSubstance(value[i]);
    var c := value[i];
    PieceSubstanceSurvives(c);
    StripKeeps(value, IsSpace, c);
    RemoveAllKeeps(stripped, IsInvalidWinChar, c);
    CollapseRunsKeeps(text, IsSpace, "_", c);
    CollapseRunsKeeps(text2, IsNotPieceChar, "_", c);
    CollapseRunsKeeps(text3, IsUnderscore, "_", c);
    StripKeeps(text4, IsDotOrUnderscore, c);
  }

  /** Normalising a campaign id a second time changes nothing. */
  lemma CampaignIdIdempotent(value: string)
    requires NormalizeCampaignId(value).Ok?
    ensures NormalizeCampaignId(NormalizeCampaignId(value).value) == NormalizeCampaignId(value)
  {
    var id := NormalizeCampaignId(value).value;
    StripIdentity(id, IsSpace);
    CollapseRunsNoneOf(id, IsSpace, "_");
    RemoveAllNoneOf(id, IsInvalidWinChar);
    StripIdentity(id, IsDotOrUnderscore);
  }

  /** Normalising an explicit snapshot id a second time changes nothing. */
  lemma SnapshotIdIdempotent(value: string, stamp: string)
    requires value != ""
    requires NormalizeSnapshotId(Some(value), stamp).Ok?
    ensures NormalizeSnapshotId(Some(NormalizeSnapshotId(Some(value), stamp).value), stamp)
            == NormalizeSnapshotId(Some(value), stamp)
  {
    var id := NormalizeSnapshotId(Some(value), stamp).value;
    assert ValidSnapshotId(id);
    ValidSnapshotIdIsClean(id);
  }

  lemma ValidSnapshotIdIsClean(id: string)
    requires ValidSnapshotId(id)
    ensures CleanSnapshotId(id) == id
  {
    SnapshotCharsAreClean(id);
    StripIdentity(id, IsSpace);
    ReplaceEachNoneOf(id, IsInvalidWinChar, '_');
    ReplaceEachNoneOf(id, IsNotSnapshotChar, '_');
    StripIdentity(id, IsDotOrUnderscore);
  }

  lemma SnapshotCharsAreClean(id: string)
    requires ValidSnapshotId(id)
    ensures !IsSpace(id[0]) && !IsSpace(id[|id| - 1])
    ensures !IsDotOrUnderscore(id[0]) && !IsDotOrUnderscore(id[|id| - 1])
    ensures NoneOf(id, IsInvalidWinChar) && NoneOf(id, IsNotSnapshotChar)
  {
    assert IsSnapshotChar(id[0]) && IsSnapshotChar(id[|id| - 1]);
  }
}

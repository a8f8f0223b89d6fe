/** frontend/src/components/mealplanning/RecipeDetails.js: the instruction
    steps, the image shown, and how each ingredient's availability is found
    and displayed. */
module RecipeDetails {
  import opened Common
  import opened Text
  import opened MealPlanControllers

  predicate NoLineBreak(s: string)
  {
    forall k :: 0 <= k < |s| ==> !IsLineBreak(s[k])
  }

  /** `split(/\r?\n|\r/)`: the pieces between the line breaks, where "\r\n"
      is a single break. There is always at least one piece. */
  function SplitLines(s: string): (r: seq<string>)
    ensures |r| >= 1
    ensures forall i :: 0 <= i < |r| ==> NoLineBreak(r[i])
  {
    if s == [] then [""]
    else if s[0] == '\r' && |s| > 1 && s[1] == '\n' then [""] + SplitLines(s[2..])
    else if IsLineBreak(s[0]) then [""] + SplitLines(s[1..])
    else
      var rest := SplitLines(s[1..]);
      [[s[0]] + rest[0]] + rest[1..]
  }

  /** The pieces put back together with "\n" between them. */
  function JoinLines(parts: seq<string>): string
  {
    if parts == [] then ""
    else if |parts| == 1 then parts[0]
    else parts[0] + "\n" + JoinLines(parts[1..])
  }

  /** The text with every "\r\n" and every lone "\r" written as "\n". */
  function NormalizeBreaks(s: string): string
  {
    if s == [] then []
    else if s[0] == '\r' && |s| > 1 && s[1] == '\n' then "\n" + NormalizeBreaks(s[2..])
    else if s[0] == '\r' then "\n" + NormalizeBreaks(s[1..])
    else [s[0]] + NormalizeBreaks(s[1..])
  }

  /** Splitting loses nothing but the kind of each line break: joining the
      pieces with "\n" gives back the text with its breaks normalised. */
  lemma {:induction false} SplitJoin(s: string)
    ensures JoinLines(SplitLines(s)) == NormalizeBreaks(s)
  {
    if s == [] {
    } else if s[0] == '\r' && |s| > 1 && s[1] == '\n' {
      SplitJoin(s[2..]);
    } else if IsLineBreak(s[0]) {
      SplitJoin(s[1..]);
    } else {
      SplitJoin(s[1..]);
      var rest := SplitLines(s[1..]);
      if |rest| > 1 {
        assert ([[s[0]] + rest[0]] + rest[1..])[1..] == rest[1..];
      }
    }
  }

  /** A text without line breaks is a single piece, and a break-free text
      followed by "\n" is its own first piece. */
  lemma {:induction false} SplitLinesPrefix(a: string, b: string)
    requires NoLineBreak(a)
    ensures SplitLines(a) == [a]
    ensures SplitLines(a + "\n" + b) == [a] + SplitLines(b)
  {
    if a != [] {
      SplitLinesPrefix(a[1..], b);
      assert [a[0]] + a[1..] == a;
      assert (a + "\n" + b)[1..] == a[1..] + "\n" + b;
    } else {
      assert a + "\n" + b == "\n" + b;
      assert ("\n" + b)[1..] == b;
    }
  }

  /** The characters of a trimmed string are characters of the string. */
  lemma TrimWithin(s: string)
    ensures forall k :: 0 <= k < |Trim(s)| ==> Trim(s)[k] in s
  {
    var j := TrimmedEnd(s);
    var i := LeadingWhitespace(s[..j]);
    assert Trim(s) == s[i..j];
    forall k | 0 <= k < |Trim(s)| ensures Trim(s)[k] in s {
      assert Trim(s)[k] == s[i + k];
    }
  }

  /** `.filter(step => step.trim()).map(step => step.trim())` on the pieces. */
  function TrimSteps(pieces: seq<string>): (r: seq<string>)
    ensures |r| <= |pieces|
    ensures forall i :: 0 <= i < |r| ==> r[i] != [] && !IsWhitespace(r[i][0]) && !IsWhitespace(r[i][|r[i]| - 1])
    ensures (forall i :: 0 <= i < |pieces| ==> NoLineBreak(pieces[i])) ==>
      forall i :: 0 <= i < |r| ==> NoLineBreak(r[i])
  {
    if pieces == [] then []
    else
      TrimWithin(pieces[0]);
      (if IsBlank(pieces[0]) then [] else [Trim(pieces[0])]) + TrimSteps(pieces[1..])
  }

  /** instructionSteps: every step is non-empty, has no white space at either
      end and holds no line break. */
  function InstructionSteps(instructions: string): (r: seq<string>)
    ensures forall i :: 0 <= i < |r| ==> r[i] != [] && !IsWhitespace(r[i][0]) && !IsWhitespace(r[i][|r[i]| - 1])
    ensures forall i :: 0 <= i < |r| ==> NoLineBreak(r[i])
  {
    TrimSteps(SplitLines(instructions))
  }

  /** Steps keep the order of the text: a first line contributes its trimmed
      self (nothing when blank) ahead of the steps of the remaining text. */
  lemma StepsInOrder(line: string, rest: string)
    requires NoLineBreak(line)
    ensures InstructionSteps(line + "\n" + rest) ==
      (if IsBlank(line) then [] else [Trim(line)]) + InstructionSteps(rest)
    ensures InstructionSteps(line) == if IsBlank(line) then [] else [Trim(line)]
  {
    SplitLinesPrefix(line, rest);
    assert ([line] + SplitLines(rest))[1..] == SplitLines(rest);
    assert [line][1..] == [];
  }

  /** The placeholder image, written as scheme and rest so that its scheme is
      visible to the verifier. */
  const PLACEHOLDER_IMAGE := "https://" + "via.placeholder.com/600x400?text=Recipe+Image"

  predicate IsWebUrl(s: string)
  {
    StartsWith(s, "http://") || StartsWith(s, "https://")
  }

  /** The image shown: the recipe's own when it is an http or https URL,
      otherwise the placeholder. */
  function ImageSource(image: Option<string>): (r: string)
    ensures image.Some? && IsWebUrl(image.value) ==> r == image.value
    ensures !(image.Some? && IsWebUrl(image.value)) ==> r == PLACEHOLDER_IMAGE
  {
    if image.Some? && image.value != "" && IsWebUrl(image.value) then image.value else PLACEHOLDER_IMAGE
  }

  /** Whatever the recipe holds, the page shows an http or https URL. */
  lemma ImageSourceIsWebUrl(image: Option<string>)
    ensures IsWebUrl(ImageSource(image))
  {
    assert PLACEHOLDER_IMAGE[..|"https://"|] == "https://";
  }

  /** The status entry shown for an ingredient: the first whose name equals
      the ingredient's up to letter case. */
  function StatusFor(statuses: seq<IngredientStatus>, ingredient: string): (r: Option<IngredientStatus>)
    ensures r.Some? ==> r.value in statuses && EqualsIgnoreCase(r.value.ingredient, ingredient)
    ensures r.None? <==> forall i :: 0 <= i < |statuses| ==> !EqualsIgnoreCase(statuses[i].ingredient, ingredient)
    ensures r.Some? ==> exists k :: (0 <= k < |statuses| && r.value == statuses[k]
      && forall j :: 0 <= j < k ==> !EqualsIgnoreCase(statuses[j].ingredient, ingredient))
  {
    match FindFirst((s: IngredientStatus) => EqualsIgnoreCase(s.ingredient, ingredient), statuses)
    case None => None
    case Some(k) => Some(statuses[k])
  }

  /** The `status` and `reason` strings the server sends for a status. */
  function StatusName(s: Status): string
  {
    match s
    case Available(_) => "available"
    case Insufficient(_) => "insufficient"
    case Missing(_) => "missing"
  }

  function StatusReason(s: Status): Option<string>
  {
    if s == Missing(true) then Some("expired") else None
  }

  const TRANSPARENT := "transparent"

  /** getIngredientStatusColor; None is an ingredient without a status. */
  function StatusColor(status: Option<string>): (c: string)
    ensures c != TRANSPARENT <==> status.Some? && status.value in ["available", "insufficient", "missing"]
  {
    match status
    case Some("available") => "rgba(76, 175, 80, 0.1)"
    case Some("insufficient") => "rgba(255, 152, 0, 0.1)"
    case Some("missing") => "rgba(244, 67, 54, 0.1)"
    case _ => TRANSPARENT
  }

  /** The tooltip of getIngredientStatusIcon; None is no icon. */
  function StatusTooltip(status: Option<string>, reason: Option<string>): (t: Option<string>)
    ensures t.None? <==> !(status.Some? && status.value in ["available", "insufficient", "missing"])
    ensures status == Some("missing") ==>
      t == Some(if reason == Some("expired") then "Item in inventory but expired" else "Missing from inventory")
  {
    match status
    case Some("available") => Some("Available in inventory")
    case Some("insufficient") => Some("Insufficient quantity")
    case Some("missing") =>
      if reason == Some("expired") then Some("Item in inventory but expired") else Some("Missing from inventory")
    case _ => None
  }

  /** Each status the server can send gets its own colour, none of them
      transparent, and an expired match is told apart from an absent one. */
  lemma StatusDisplayDistinguishes(a: Status, b: Status)
    ensures StatusColor(Some(StatusName(a))) != TRANSPARENT
    ensures StatusColor(Some(StatusName(a))) == StatusColor(Some(StatusName(b))) <==> StatusName(a) == StatusName(b)
    ensures a.Missing? && b.Missing? ==>
      (StatusTooltip(Some(StatusName(a)), StatusReason(a)) == StatusTooltip(Some(StatusName(b)), StatusReason(b))
       <==> a == b)
  {
  }
}

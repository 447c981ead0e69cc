/** Token directions, visual order and wrapping units of one caption line. */
module Bidi {
  import opened Wrappers

  /** The bidirectional classes the captions distinguish; `Other` is every remaining class. */
  datatype BidiClass = ClassL | ClassR | ClassAL | ClassEN | ClassAN | ClassOther

  type Classes = char -> BidiClass

  datatype Direction = RTL | LTR

  predicate IsRtl(c: BidiClass) { c.ClassR? || c.ClassAL? }

  predicate IsNumber(c: BidiClass) { c.ClassEN? || c.ClassAN? }

  predicate AnyRtl(text: string, cls: Classes) { exists c <- text :: IsRtl(cls(c)) }

  predicate AnyLtr(text: string, cls: Classes) { exists c <- text :: cls(c).ClassL? }

  predicate AnyNumber(text: string, cls: Classes) { exists c <- text :: IsNumber(cls(c)) }

  /** Whether `text[at]` is its first strong character. */
  ghost predicate FirstStrong(text: string, at: int, cls: Classes) {
    && 0 <= at < |text| && (IsRtl(cls(text[at])) || cls(text[at]).ClassL?)
    && forall i | 0 <= i < at :: !IsRtl(cls(text[i])) && !cls(text[i]).ClassL?
  }

  function ParagraphDirection(text: string, cls: Classes): (r: Direction)
    ensures r.RTL? <==> exists at :: FirstStrong(text, at, cls) && IsRtl(cls(text[at]))
  {
    if text == [] then LTR
    else if IsRtl(cls(text[0])) then
      assert FirstStrong(text, 0, cls);
      RTL
    else if cls(text[0]).ClassL? then LTR
    else
      var r := ParagraphDirection(text[1..], cls);
      assert forall at :: FirstStrong(text[1..], at, cls) ==> FirstStrong(text, at + 1, cls);
      assert forall at :: FirstStrong(text, at, cls) ==> at > 0 && FirstStrong(text[1..], at - 1, cls);
      r
  }

  method ScanDirection(text: string, cls: Classes) returns (r: Direction)
    ensures r == ParagraphDirection(text, cls)
  {
    for i := 0 to |text|
      invariant ParagraphDirection(text, cls) == ParagraphDirection(text[i..], cls)
    {
      if IsRtl(cls(text[i])) {
        return RTL;
      }
      if cls(text[i]).ClassL? {
        return LTR;
      }
      assert text[i..][1..] == text[i + 1..];
    }
    return LTR;
  }

  function TokenDirection(token: string, cls: Classes): Option<Direction> {
    if AnyRtl(token, cls) then Some(RTL) else if AnyLtr(token, cls) then Some(LTR) else None
  }

  /** The direction a token has of its own: strong, or a number's left-to-right. */
  function OwnDirection(token: string, cls: Classes): Option<Direction> {
    if TokenDirection(token, cls).None? && AnyNumber(token, cls) then Some(LTR) else TokenDirection(token, cls)
  }

  function OwnDirections(tokens: seq<string>, cls: Classes): seq<Option<Direction>> {
    seq(|tokens|, i requires 0 <= i < |tokens| => OwnDirection(tokens[i], cls))
  }

  /** The nearest direction at or before `i`. */
  function NearestBefore(own: seq<Option<Direction>>, i: nat): Option<Direction>
    requires i < |own|
  {
    if own[i].Some? then own[i] else if i == 0 then None else NearestBefore(own, i - 1)
  }

  /** The nearest direction at or after `i`. */
  function NearestAfter(own: seq<Option<Direction>>, i: nat): Option<Direction>
    requires i < |own|
    decreases |own| - i
  {
    if own[i].Some? then own[i] else if i == |own| - 1 then None else NearestAfter(own, i + 1)
  }

  lemma {:induction false} NearestBeforeIsNearest(own: seq<Option<Direction>>, i: nat)
    requires i < |own|
    ensures var r := NearestBefore(own, i);
      && (r.None? <==> forall k | 0 <= k <= i :: own[k].None?)
      && (r.Some? ==> exists k | 0 <= k <= i :: own[k] == r && forall m | k < m <= i :: own[m].None?)
  {
    if own[i].None? && i > 0 {
      NearestBeforeIsNearest(own, i - 1);
    }
  }

  lemma {:induction false} NearestAfterIsNearest(own: seq<Option<Direction>>, i: nat)
    requires i < |own|
    ensures var r := NearestAfter(own, i);
      && (r.None? <==> forall k | i <= k < |own| :: own[k].None?)
      && (r.Some? ==> exists k | i <= k < |own| :: own[k] == r && forall m | i <= m < k :: own[m].None?)
    decreases |own| - i
  {
    if own[i].None? && i < |own| - 1 {
      NearestAfterIsNearest(own, i + 1);
    }
  }

  /** Neutral tokens take the nearest earlier direction, else the nearest later one, else the base. */
  function Resolved(own: seq<Option<Direction>>, base: Direction): (r: seq<Direction>)
    ensures |r| == |own|
  {
    seq(|own|, i requires 0 <= i < |own| =>
          match NearestBefore(own, i)
          case Some(d) => d
          case None => (match NearestAfter(own, i) case Some(d) => d case None => base))
  }

  function Directions(tokens: seq<string>, base: Direction, cls: Classes): (r: seq<Direction>)
    ensures |r| == |tokens|
  {
    Resolved(OwnDirections(tokens, cls), base)
  }

  /** Numbers read left-to-right. */
  method AttachNumbers(tokens: seq<string>, cls: Classes) returns (directions: seq<Option<Direction>>)
    ensures directions == OwnDirections(tokens, cls)
  {
    var n := |tokens|;
    directions := seq(n, i requires 0 <= i < n => TokenDirection(tokens[i], cls));
    for i := 0 to n
      invariant |directions| == n
      invariant forall k | 0 <= k < i :: directions[k] == OwnDirection(tokens[k], cls)
      invariant forall k | i <= k < n :: directions[k] == TokenDirection(tokens[k], cls)
    {
      if directions[i].None? && AnyNumber(tokens[i], cls) {
        directions := directions[i := Some(LTR)];
      }
    }
  }

  method ForwardPass(own: seq<Option<Direction>>) returns (directions: seq<Option<Direction>>)
    ensures |directions| == |own| && forall k | 0 <= k < |own| :: directions[k] == NearestBefore(own, k)
  {
    directions := own;
    var previous: Option<Direction> := None;
    for i := 0 to |own|
      invariant |directions| == |own|
      invariant previous == if i == 0 then None else NearestBefore(own, i - 1)
      invariant forall k | 0 <= k < i :: directions[k] == NearestBefore(own, k)
      invariant forall k | i <= k < |own| :: directions[k] == own[k]
    {
      if directions[i].None? {
        directions := directions[i := previous];
      } else {
        previous := directions[i];
      }
    }
  }

  method BackwardPass(own: seq<Option<Direction>>, before: seq<Option<Direction>>)
    returns (directions: seq<Option<Direction>>)
    requires |before| == |own| && forall k | 0 <= k < |own| :: before[k] == NearestBefore(own, k)
    ensures |directions| == |own|
    ensures forall k | 0 <= k < |own| :: directions[k] == if before[k].Some? then before[k] else NearestAfter(own, k)
  {
    directions := before;
    var following: Option<Direction> := None;
    for i := |own| downto 0
      invariant |directions| == |own|
      invariant i < |own| && (own[i].Some? || before[i].None?) ==> following == NearestAfter(own, i)
      invariant i == |own| ==> following == None
      invariant forall k | 0 <= k < i :: directions[k] == before[k]
      invariant forall k | i <= k < |own| :: directions[k] == if before[k].Some? then before[k] else NearestAfter(own, k)
    {
      if directions[i].None? {
        directions := directions[i := following];
      } else {
        following := directions[i];
      }
    }
  }

  /** The passes over the tokens. */
  method ResolveDirections(tokens: seq<string>, base: Direction, cls: Classes) returns (r: seq<Direction>)
    ensures r == Directions(tokens, base, cls)
  {
    var own := AttachNumbers(tokens, cls);
    var before := ForwardPass(own);
    var directions := BackwardPass(own, before);
    r := seq(|own|, i requires 0 <= i < |own| => if directions[i].Some? then directions[i].value else base);
  }

  /** The resolution rule: the nearest earlier direction, else the nearest later one, else the base. */
  ghost predicate ResolvedAt(own: seq<Option<Direction>>, base: Direction, i: nat, d: Direction)
    requires i < |own|
  {
    || (exists k | 0 <= k <= i :: own[k] == Some(d) && forall m | k < m <= i :: own[m].None?)
    || ((forall k | 0 <= k <= i :: own[k].None?)
        && exists k | i < k < |own| :: own[k] == Some(d) && forall m | i <= m < k :: own[m].None?)
    || ((forall k | 0 <= k < |own| :: own[k].None?) && d == base)
  }

  /** The resolved direction is the only one the rule allows. */
  lemma ResolutionRule(own: seq<Option<Direction>>, base: Direction, i: nat, d: Direction)
    requires i < |own|
    ensures ResolvedAt(own, base, i, d) <==> d == Resolved(own, base)[i]
  {
    NearestBeforeIsNearest(own, i);
    NearestAfterIsNearest(own, i);
  }
}

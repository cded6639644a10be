/** The gallery state of src/components/VideoGallery.jsx: highlight set, pins, tile menu, names. */
module VideoGallery {
  import opened Wrappers
  import opened Seqs
  import opened Strings
  import opened Sdk
  import opened Identifiers

  // ---------------------------------------------------------------------------------------------
  // The local spotlight list and the highlight list
  // ---------------------------------------------------------------------------------------------

  /** The effect that maps the spotlighted participants to their raw ids, in order. */
  function SpotlightIds(spotlighted: seq<FeatureEntry>): (ids: seq<string>)
    ensures |ids| == |spotlighted|
    ensures forall i | 0 <= i < |ids| :: ids[i] == spotlighted[i].identifier.rawId
  {
    if |spotlighted| == 0 then [] else [spotlighted[0].identifier.rawId] + SpotlightIds(spotlighted[1..])
  }

  /**
   * The gallery's `includes` test on the local spotlight list agrees with the
   * `isParticipantHandRaised` test the participant list applies to the same backend list.
   */
  lemma SpotlightIdsAgreeWithMembership(spotlighted: seq<FeatureEntry>, userId: string)
    requires userId != ""
    ensures userId in SpotlightIds(spotlighted) <==> IsParticipantHandRaised(Some(userId), Some(spotlighted))
  {
    var ids := SpotlightIds(spotlighted);
    if userId in ids {
      var k :| 0 <= k < |ids| && ids[k] == userId;
      assert spotlighted[k].identifier.rawId == userId;
    }
  }

  /**
   * `hl.filter((item, index) => hl.indexOf(item) === index)` over the positions `k` onwards: a
   * position is kept when it holds the first occurrence of its value.
   */
  function KeepFirstFrom(hl: seq<string>, k: nat): seq<string>
    requires k <= |hl|
    decreases |hl| - k
  {
    if k == |hl| then []
    else (if IndexOf(hl, hl[k]) == k then [hl[k]] else []) + KeepFirstFrom(hl, k + 1)
  }

  /** `hightLightParticipant`: spotlight ids, then pinned ids, without repeats. */
  function HighlightParticipants(localSpotlight: seq<string>, pinned: seq<string>): seq<string> {
    KeepFirstFrom(localSpotlight + pinned, 0)
  }

  /**
   * A reference definition of de-duplication: walk the list and keep each value not seen before.
   * `seen` holds the values kept so far.
   */
  function Distinct(s: seq<string>, seen: set<string>): seq<string> {
    if |s| == 0 then []
    else if s[0] in seen then Distinct(s[1..], seen)
    else [s[0]] + Distinct(s[1..], seen + {s[0]})
  }

  lemma {:induction false} KeepFirstIsDistinct(hl: seq<string>, k: nat)
    requires k <= |hl|
    ensures KeepFirstFrom(hl, k) == Distinct(hl[k..], Elems(hl[..k]))
    decreases |hl| - k
  {
    if k < |hl| {
      var e := Elems(hl[..k]);
      IndexOfFirstOccurrence(hl, k);
      KeepFirstIsDistinct(hl, k + 1);
      assert hl[k..][0] == hl[k];
      assert hl[k..][1..] == hl[k + 1..];
      assert hl[..k + 1] == hl[..k] + [hl[k]];
      assert Elems(hl[..k + 1]) == e + {hl[k]};
      assert hl[k] in e <==> hl[k] in hl[..k];
      if hl[k] in e {
        assert e + {hl[k]} == e;
        assert KeepFirstFrom(hl, k) == KeepFirstFrom(hl, k + 1);
        assert Distinct(hl[k..], e) == Distinct(hl[k + 1..], e);
      } else {
        assert KeepFirstFrom(hl, k) == [hl[k]] + KeepFirstFrom(hl, k + 1);
        assert Distinct(hl[k..], e) == [hl[k]] + Distinct(hl[k + 1..], e + {hl[k]});
      }
    }
  }

  lemma {:induction false} DistinctMembers(s: seq<string>, seen: set<string>)
    ensures NoDuplicates(Distinct(s, seen))
    ensures forall x :: x in Distinct(s, seen) <==> x in s && x !in seen
  {
    if |s| > 0 {
      var t := s[1..];
      if s[0] in seen {
        DistinctMembers(t, seen);
      } else {
        DistinctMembers(t, seen + {s[0]});
      }
      assert forall x :: x in s <==> x == s[0] || x in t;
    }
  }

  lemma {:induction false} DistinctAppend(a: seq<string>, b: seq<string>, seen: set<string>)
    ensures Distinct(a + b, seen) == Distinct(a, seen) + Distinct(b, seen + Elems(a))
  {
    if |a| == 0 {
      assert a + b == b;
      assert Elems(a) == {};
      assert seen + Elems(a) == seen;
    } else {
      assert (a + b)[0] == a[0];
      assert (a + b)[1..] == a[1..] + b;
      assert Elems(a) == {a[0]} + Elems(a[1..]);
      if a[0] in seen {
        DistinctAppend(a[1..], b, seen);
        assert seen + Elems(a) == seen + Elems(a[1..]);
      } else {
        DistinctAppend(a[1..], b, seen + {a[0]});
        assert seen + Elems(a) == seen + {a[0]} + Elems(a[1..]);
      }
    }
  }

  /** `r` lists values of `s` in the order of their first occurrences in `s`. */
  ghost predicate InFirstOccurrenceOrder(r: seq<string>, s: seq<string>) {
    forall i, j | 0 <= i < j < |r| :: 0 <= IndexOf(s, r[i]) < IndexOf(s, r[j])
  }

  /** Relative to `x :: t`, values other than `x` keep the order they had relative to `t`. */
  lemma OrderShift(r: seq<string>, s: seq<string>)
    requires |s| > 0 && InFirstOccurrenceOrder(r, s[1..])
    requires forall y | y in r :: y in s[1..] && y != s[0]
    ensures InFirstOccurrenceOrder(r, s)
  {
    forall y | y in r ensures IndexOf(s, y) == IndexOf(s[1..], y) + 1 {
      IndexOfTail(s, y);
    }
    forall i, j | 0 <= i < j < |r| ensures 0 <= IndexOf(s, r[i]) < IndexOf(s, r[j]) {
      assert r[i] in r && r[j] in r;
    }
  }

  /** The first value of `s` may be put in front of a list of its other values. */
  lemma OrderPrepend(r: seq<string>, s: seq<string>)
    requires |s| > 0 && InFirstOccurrenceOrder(r, s)
    requires forall y | y in r :: y in s && y != s[0]
    ensures InFirstOccurrenceOrder([s[0]] + r, s)
  {
    var r' := [s[0]] + r;
    assert IndexOf(s, s[0]) == 0;
    forall k | 0 <= k < |r| ensures 0 < IndexOf(s, r[k]) {
      assert r[k] in r;
    }
    forall i, j | 0 <= i < j < |r'| ensures 0 <= IndexOf(s, r'[i]) < IndexOf(s, r'[j]) {
      assert r'[j] == r[j - 1];
      if i > 0 {
        assert r'[i] == r[i - 1];
      }
    }
    assert InFirstOccurrenceOrder(r', s);
  }

  /** De-duplication keeps first occurrences in the order they occur in the input. */
  lemma {:induction false} DistinctKeepsFirstOccurrenceOrder(s: seq<string>, seen: set<string>)
    ensures InFirstOccurrenceOrder(Distinct(s, seen), s)
  {
    if |s| > 0 {
      var t := s[1..];
      var seen' := if s[0] in seen then seen else seen + {s[0]};
      DistinctKeepsFirstOccurrenceOrder(t, seen');
      DistinctMembers(t, seen');
      var rt := Distinct(t, seen');
      OrderShift(rt, s);
      if s[0] !in seen {
        OrderPrepend(rt, s);
      }
    }
  }

  /** The highlight list is the reference de-duplication of spotlight ids followed by pinned ids. */
  lemma HighlightIsDistinct(localSpotlight: seq<string>, pinned: seq<string>)
    ensures HighlightParticipants(localSpotlight, pinned)
         == Distinct(localSpotlight, {}) + Distinct(pinned, Elems(localSpotlight))
  {
    var hl := localSpotlight + pinned;
    KeepFirstIsDistinct(hl, 0);
    assert hl[0..] == hl;
    assert Elems(hl[..0]) == {};
    DistinctAppend(localSpotlight, pinned, {});
    assert {} + Elems(localSpotlight) == Elems(localSpotlight);
  }

  /** The highlight list has no repeats and holds exactly the spotlight ids and the pinned ids. */
  lemma HighlightMembers(localSpotlight: seq<string>, pinned: seq<string>)
    ensures var r := HighlightParticipants(localSpotlight, pinned);
            NoDuplicates(r) && forall x :: x in r <==> x in localSpotlight || x in pinned
  {
    var hl := localSpotlight + pinned;
    KeepFirstIsDistinct(hl, 0);
    assert hl[0..] == hl;
    assert Elems(hl[..0]) == {};
    DistinctMembers(hl, {});
    assert forall x :: x in hl <==> x in localSpotlight || x in pinned;
  }

  /** The highlight list keeps the order of first occurrences in spotlight ids followed by pinned ids. */
  lemma HighlightKeepsFirstOccurrenceOrder(localSpotlight: seq<string>, pinned: seq<string>)
    ensures InFirstOccurrenceOrder(HighlightParticipants(localSpotlight, pinned), localSpotlight + pinned)
  {
    var hl := localSpotlight + pinned;
    KeepFirstIsDistinct(hl, 0);
    assert hl[0..] == hl;
    assert Elems(hl[..0]) == {};
    DistinctKeepsFirstOccurrenceOrder(hl, {});
  }

  /** Every spotlight id comes before every id that is only pinned. */
  lemma HighlightSpotlightFirst(localSpotlight: seq<string>, pinned: seq<string>)
    ensures var r := HighlightParticipants(localSpotlight, pinned);
            forall i, j | 0 <= i < |r| && 0 <= j < |r| && r[i] in localSpotlight && r[j] !in localSpotlight :: i < j
  {
    var r := HighlightParticipants(localSpotlight, pinned);
    HighlightIsDistinct(localSpotlight, pinned);
    var a := Distinct(localSpotlight, {});
    var b := Distinct(pinned, Elems(localSpotlight));
    DistinctMembers(localSpotlight, {});
    DistinctMembers(pinned, Elems(localSpotlight));
    assert r == a + b;
    assert forall x :: x in Elems(localSpotlight) <==> x in localSpotlight;
    assert forall k | 0 <= k < |a| :: r[k] == a[k] && a[k] in a;
    assert forall k | |a| <= k < |r| :: r[k] == b[k - |a|] && b[k - |a|] in b;
  }

  /** Pinning an id that is already highlighted leaves the highlight list as it was. */
  lemma HighlightIgnoresKnownId(localSpotlight: seq<string>, pinned: seq<string>, userId: string)
    requires userId in localSpotlight || userId in pinned
    ensures HighlightParticipants(localSpotlight, Pin(pinned, userId)) == HighlightParticipants(localSpotlight, pinned)
  {
    HighlightIsDistinct(localSpotlight, pinned);
    HighlightIsDistinct(localSpotlight, Pin(pinned, userId));
    var e := Elems(localSpotlight);
    DistinctAppend(pinned, [userId], e);
    assert userId in e + Elems(pinned);
    assert Distinct([userId], e + Elems(pinned)) == [];
  }

  /** The highlight list's elements do not depend on the order of the pinned list. */
  lemma HighlightElementsIgnorePinOrder(localSpotlight: seq<string>, pinned: seq<string>, pinned': seq<string>)
    requires Elems(pinned) == Elems(pinned')
    ensures Elems(HighlightParticipants(localSpotlight, pinned)) == Elems(HighlightParticipants(localSpotlight, pinned'))
  {
    HighlightMembers(localSpotlight, pinned);
    HighlightMembers(localSpotlight, pinned');
    assert forall x :: x in pinned <==> x in Elems(pinned);
    assert forall x :: x in pinned' <==> x in Elems(pinned');
  }

  // ---------------------------------------------------------------------------------------------
  // Pin and unpin
  // ---------------------------------------------------------------------------------------------

  /** `pinnedParticipants.concat(userId)`: appended at the end, with no membership check. */
  function Pin(pinned: seq<string>, userId: string): seq<string> {
    pinned + [userId]
  }

  /** `pinnedParticipants.filter((u) => u !== userId)`. */
  function Unpin(pinned: seq<string>, userId: string): seq<string> {
    RemoveAll(pinned, userId)
  }

  /**
   * Unpinning removes every occurrence of the id and keeps the other entries in order, so it also
   * undoes any number of earlier pins of that id.
   */
  lemma UnpinAfterPin(pinned: seq<string>, userId: string)
    ensures userId !in Unpin(pinned, userId)
    ensures Unpin(Pin(pinned, userId), userId) == Unpin(pinned, userId)
    ensures userId !in pinned ==> Unpin(Pin(pinned, userId), userId) == pinned
  {
    RemoveAllAppend(pinned, [userId], userId);
    assert RemoveAll([userId], userId) == [];
    if userId !in pinned {
      RemoveAllAbsent(pinned, userId);
    }
  }

  /** Pinning twice leaves a repeated entry in the pinned list. */
  lemma PinTwiceRepeats(pinned: seq<string>, userId: string)
    ensures var p := Pin(Pin(pinned, userId), userId);
            |p| == |pinned| + 2 && p[|p| - 1] == p[|p| - 2] == userId
  {
  }

  // ---------------------------------------------------------------------------------------------
  // The tile's menu and icons
  // ---------------------------------------------------------------------------------------------

  datatype TileMenuItem = PinForMe(disabled: bool) | UnpinItem

  /**
   * The tile's context menu: "Pin for me" for a participant who is not pinned, disabled while they
   * are spotlighted, and "Unpin" for a pinned one.
   */
  function TileMenu(userId: string, localSpotlight: seq<string>, pinned: seq<string>): (item: TileMenuItem)
    ensures item.UnpinItem? <==> userId in pinned
    ensures item.PinForMe? ==> (item.disabled <==> userId in localSpotlight)
  {
    if userId !in pinned then PinForMe(userId in localSpotlight) else UnpinItem
  }

  /**
   * The pinned list after the menu item is clicked. A disabled menu item never fires its
   * `onClick`, so clicking a disabled "Pin for me" changes nothing.
   */
  function ApplyTileMenu(item: TileMenuItem, userId: string, pinned: seq<string>): seq<string> {
    match item
    case PinForMe(disabled) => if disabled then pinned else Pin(pinned, userId)
    case UnpinItem => Unpin(pinned, userId)
  }

  /**
   * Clicking an enabled menu item flips which item the menu offers next; a spotlighted participant
   * who is not pinned cannot be pinned from their tile.
   */
  lemma TileMenuToggles(userId: string, localSpotlight: seq<string>, pinned: seq<string>)
    ensures var item := TileMenu(userId, localSpotlight, pinned);
            var next := ApplyTileMenu(item, userId, pinned);
            (item == PinForMe(true) ==> next == pinned) &&
            (item != PinForMe(true) ==> (TileMenu(userId, localSpotlight, next).UnpinItem? <==> userId !in pinned))
  {
  }

  datatype TileIcons = TileIcons(raisedHand: bool, spotlight: bool, pinned: bool)

  /** The icons a tile shows: the pin icon only for a pinned participant who is not spotlighted. */
  function TileIconsFor(userId: string, raised: seq<FeatureEntry>, localSpotlight: seq<string>,
                        pinned: seq<string>): (icons: TileIcons)
    ensures icons.pinned <==> userId in pinned && userId !in localSpotlight
    ensures !(icons.pinned && icons.spotlight)
    ensures icons.spotlight <==> userId in localSpotlight
    ensures icons.raisedHand <==> IsParticipantHandRaised(Some(userId), Some(raised))
  {
    var inSpotlight := userId in localSpotlight;
    TileIcons(IsParticipantHandRaised(Some(userId), Some(raised)), inSpotlight,
              userId in pinned && !inSpotlight)
  }

  // ---------------------------------------------------------------------------------------------
  // Display-name backfill (the `participantList` memo)
  // ---------------------------------------------------------------------------------------------

  datatype GalleryParticipant = GalleryParticipant(userId: string, displayName: Option<string>)

  /**
   * One step of the memo's `map`: a participant with a name is left alone; otherwise the name is
   * looked up by the third `:`-field of its user id. `None` is the `TypeError` raised by
   * `part.displayName` when no member matches.
   */
  function BackfillOne(p: GalleryParticipant, data: seq<DirectoryMember>): Option<GalleryParticipant> {
    if Truthy(p.displayName) then Some(p)
    else
      match FindMember(data, ThirdField(p.userId))
      case None => None
      case Some(member) => Some(p.(displayName := member.displayName))
  }

  /** What a successful step does: the user id is kept and a present name is never replaced. */
  lemma BackfillOneKeeps(p: GalleryParticipant, data: seq<DirectoryMember>)
    requires BackfillOne(p, data).Some?
    ensures var q := BackfillOne(p, data).value;
            q.userId == p.userId &&
            (Truthy(p.displayName) ==> q == p) &&
            (!Truthy(p.displayName) ==>
               exists i | 0 <= i < |data| :: Some(data[i].userId) == ThirdField(p.userId) &&
                                             q.displayName == data[i].displayName)
  {
  }

  /**
   * The memo, which assigns `p.displayName` in place. With an empty or absent directory it returns
   * the list untouched. `crashed` reports the `TypeError`; the entries before the failing one have
   * then already been updated.
   */
  method BackfillDisplayNames(ps: array<GalleryParticipant>, data: seq<DirectoryMember>) returns (crashed: bool)
    modifies ps
    ensures |data| == 0 ==> !crashed && ps[..] == old(ps[..])
    ensures !crashed && |data| > 0 ==> forall i | 0 <= i < ps.Length ::
              BackfillOne(old(ps[i]), data).Some? && ps[i] == BackfillOne(old(ps[i]), data).value
    ensures crashed ==> exists k | 0 <= k < ps.Length ::
              BackfillOne(old(ps[k]), data).None? &&
              (forall i | 0 <= i < k :: BackfillOne(old(ps[i]), data).Some? &&
                                        ps[i] == BackfillOne(old(ps[i]), data).value) &&
              (forall i | k <= i < ps.Length :: ps[i] == old(ps[i]))
  {
    crashed := false;
    if |data| == 0 {
      return;
    }
    var i := 0;
    while i < ps.Length
      invariant 0 <= i <= ps.Length
      invariant forall m | 0 <= m < i :: BackfillOne(old(ps[m]), data).Some? &&
                                         ps[m] == BackfillOne(old(ps[m]), data).value
      invariant forall m | i <= m < ps.Length :: ps[m] == old(ps[m])
    {
      var next := BackfillOne(ps[i], data);
      if next.None? {
        crashed := true;
        return;
      }
      ps[i] := next.value;
      i := i + 1;
    }
  }

  /** The lookup key is the third field of a raw id of the form `a:b:c`. */
  lemma BackfillUsesThirdField(a: string, b: string, c: string, data: seq<DirectoryMember>, name: Option<string>)
    requires ':' !in a && ':' !in b && ':' !in c
    requires |data| > 0 && data[0] == DirectoryMember(c, name)
    ensures BackfillOne(GalleryParticipant(a + ":" + b + ":" + c, None), data)
         == Some(GalleryParticipant(a + ":" + b + ":" + c, name))
  {
    ThirdFieldOfRawId(a, b, c);
  }

  /**
   * As written, a nameless participant whose user id has no directory match stops the memo: for
   * any raw id `a:b:c` (a guest `8:orgid:guest`, say) and a directory with no member `c` (one
   * listing only the host), the step raises the `TypeError`.
   */
  lemma BackfillCrashesOnUnlistedUser(a: string, b: string, c: string, data: seq<DirectoryMember>)
    requires ':' !in a && ':' !in b && ':' !in c
    requires forall i | 0 <= i < |data| :: data[i].userId != c
    ensures BackfillOne(GalleryParticipant(a + ":" + b + ":" + c, None), data).None?
  {
    ThirdFieldOfRawId(a, b, c);
  }

  /**
   * The evidently intended step, with the lookup guarded as `?.displayName` (as the participant
   * list does): it never fails, agrees with the step as written wherever that succeeds, and leaves
   * an unmatched participant without a name.
   */
  function BackfillOneGuarded(p: GalleryParticipant, data: seq<DirectoryMember>): (q: GalleryParticipant)
    ensures q.userId == p.userId
    ensures Truthy(p.displayName) ==> q == p
    ensures BackfillOne(p, data).Some? ==> q == BackfillOne(p, data).value
    ensures BackfillOne(p, data).None? ==> q.displayName.None?
  {
    if Truthy(p.displayName) then p
    else
      match FindMember(data, ThirdField(p.userId))
      case None => p.(displayName := None)
      case Some(member) => p.(displayName := member.displayName)
  }

  /** The intended memo over the whole list: same length, same ids, named participants untouched. */
  function BackfillGuarded(ps: seq<GalleryParticipant>, data: seq<DirectoryMember>): (r: seq<GalleryParticipant>)
    ensures |r| == |ps|
    ensures forall i | 0 <= i < |ps| :: r[i].userId == ps[i].userId
    ensures forall i | 0 <= i < |ps| && Truthy(ps[i].displayName) :: r[i] == ps[i]
    ensures |data| == 0 ==> r == ps
    ensures |data| > 0 ==> forall i | 0 <= i < |ps| :: r[i] == BackfillOneGuarded(ps[i], data)
  {
    if |data| == 0 then ps
    else if |ps| == 0 then []
    else
      var tail := BackfillGuarded(ps[1..], data);
      assert forall i | 1 <= i < |ps| :: ps[i] == ps[1..][i - 1];
      [BackfillOneGuarded(ps[0], data)] + tail
  }

  // ---------------------------------------------------------------------------------------------
  // getInitials
  // ---------------------------------------------------------------------------------------------

  /**
   * `getInitials`: `name.split("")` gives one entry per character, so the result is the first two
   * characters of the name, upper-cased.
   */
  function GetInitials(name: string): (r: string)
    ensures |r| == if |name| < 2 then |name| else 2
    ensures forall i | 0 <= i < |r| :: r[i] == UpperChar(name[i])
  {
    UpperCase(name[..if |name| < 2 then |name| else 2])
  }

  /** Initials of initials are the same initials. */
  lemma GetInitialsIdempotent(name: string)
    ensures GetInitials(GetInitials(name)) == GetInitials(name)
  {
    var r := GetInitials(name);
    var rr := GetInitials(r);
    assert |rr| == |r|;
    forall i | 0 <= i < |r| ensures rr[i] == r[i] {
      assert r[i] == UpperChar(name[i]);
    }
  }
}

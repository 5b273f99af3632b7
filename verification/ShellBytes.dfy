// Flag offsets in bytes, as the formatter keeps them: they are the byte places of the character
// offsets, and every slice taken with them starts and ends at a character boundary.
module ShellBytes {
  import opened Text
  import opened Utf8
  import opened ShellScan
  import opened ShellShape
  import opened ShellLayout

  // The byte place of the `k`th character.
  function Place(text: string, k: nat): nat
    requires k <= |text|
  {
    |EncodeAll(text[..k])|
  }

  lemma {:induction false} PlaceCuts(text: string, k: nat)
    requires k <= |text|
    ensures Place(text, k) <= |EncodeAll(text)|
    ensures EncodeAll(text)[..Place(text, k)] == EncodeAll(text[..k])
    ensures EncodeAll(text)[Place(text, k)..] == EncodeAll(text[k..])
    ensures Boundary(EncodeAll(text), Place(text, k))
  {
    hide EncodeAll, Continues;
    assert text == text[..k] + text[k..];
    EncodeAllConcat(text[..k], text[k..]);
    EncodedStart(text[k..]);
    var front, back := EncodeAll(text[..k]), EncodeAll(text[k..]);
    assert back != [] ==> (front + back)[|front|] == back[0];
  }

  lemma {:induction false} PlaceNext(text: string, k: nat)
    requires k < |text|
    ensures Place(text, k + 1) == Place(text, k) + |Encode(text[k])|
  {
    hide Encode;
    assert text[..k + 1] == text[..k] + [text[k]];
    EncodeAllConcat(text[..k], [text[k]]);
    assert [text[k]][1..] == "";
  }

  lemma {:induction false} PlaceGrows(text: string, j: nat, k: nat)
    requires j <= k <= |text|
    ensures j < k ==> Place(text, j) < Place(text, k)
  {
    hide Place;
    if j < k {
      PlaceNext(text, k - 1);
      PlaceGrows(text, j, k - 1);
    }
  }

  // Behind `lead` characters every place is counted from there.
  lemma {:induction false} PlaceBehind(text: string, lead: nat, k: nat)
    requires lead + k <= |text|
    ensures Place(text, lead + k) == Place(text, lead) + Place(text[lead..], k)
  {
    hide EncodeAll;
    assert text[..lead + k] == text[..lead] + text[lead..][..k];
    EncodeAllConcat(text[..lead], text[lead..][..k]);
  }

  lemma {:induction false} PlaceInFront(text: string, more: string, k: nat)
    requires k <= |text|
    ensures Place(text + more, k) == Place(text, k)
  {
    assert (text + more)[..k] == text[..k];
  }

  lemma {:induction false} OneByte(c: char)
    requires IsGap(c) || c == '-'
    ensures |Encode(c)| == 1
  {
  }

  function Places(text: string, flags: seq<nat>): (places: seq<nat>)
    requires forall k :: 0 <= k < |flags| ==> flags[k] <= |text|
    ensures |places| == |flags|
    ensures forall k :: 0 <= k < |flags| ==> places[k] == Place(text, flags[k])
  {
    seq(|flags|, k requires 0 <= k < |flags| => Place(text, flags[k]))
  }

  // ----- slices -----

  // A flag's byte place and the place one byte before it are character boundaries of the stage.
  lemma {:induction false} FlagIsBoundary(text: string, flags: seq<nat>, k: nat)
    requires FlagsOk(text, flags) && k < |flags|
    ensures flags[k] <= |text| && 1 <= Place(text, flags[k]) <= |EncodeAll(text)|
    ensures Place(text, flags[k]) - 1 == Place(text, flags[k] - 1)
    ensures Boundary(EncodeAll(text), Place(text, flags[k]))
    ensures Boundary(EncodeAll(text), Place(text, flags[k]) - 1)
  {
    hide Place, Boundary, IsGap;
    PlaceNext(text, flags[k] - 1);
    OneByte(text[flags[k] - 1]);
    PlaceCuts(text, flags[k]);
    PlaceCuts(text, flags[k] - 1);
  }

  lemma {:induction false} SlicePlaces(text: string, a: nat, b: nat)
    requires a <= b <= |text|
    ensures Place(text, a) <= Place(text, b) <= |EncodeAll(text)|
    ensures EncodeAll(text)[Place(text, a)..Place(text, b)] == EncodeAll(text[a..b])
  {
    hide EncodeAll;
    PlaceGrows(text, a, b);
    PlaceCuts(text, b);
    PlaceCuts(text[..b], a);
    assert text[..b][..a] == text[..a] && text[..b][a..] == text[a..b];
    assert EncodeAll(text)[..Place(text, b)][Place(text, a)..] == EncodeAll(text)[Place(text, a)..Place(text, b)];
  }

  // The byte slices a wrapped stage is printed in are the encodings of its pieces.
  lemma {:induction false} PieceSlices(text: string, flags: seq<nat>, k: nat)
    requires FlagsOk(text, flags) && k <= |flags|
    ensures PieceStart(flags, k) <= |text|
    ensures var start := Place(text, PieceStart(flags, k));
            && start <= |EncodeAll(text)|
            && EncodeAll(text)[start..] == EncodeAll(text[PieceStart(flags, k)..])
            && (k < |flags| ==>
                  && PieceStart(flags, k) < flags[k] <= |text|
                  && start <= Place(text, flags[k]) - 1 <= |EncodeAll(text)|
                  && EncodeAll(text)[start..Place(text, flags[k]) - 1] ==
                     EncodeAll(text[PieceStart(flags, k)..flags[k] - 1]))
  {
    PieceBounds(text, flags, k);
    hide EncodeAll, Place, FlagsOk;
    PlaceCuts(text, PieceStart(flags, k));
    if k < |flags| {
      FlagIsBoundary(text, flags, k);
      SlicePlaces(text, PieceStart(flags, k), flags[k] - 1);
    }
  }

  // ----- the offsets on their way -----

  // `current.len() + c.len_utf8()`: a flag is pushed at its byte place.
  lemma {:induction false} PushedPlace(current: string, c: char)
    ensures |EncodeAll(current)| + |Encode(c)| == Place(current + [c], |current| + 1)
  {
    hide EncodeAll, Encode;
    PlaceNext(current + [c], |current|);
    PlaceInFront(current, [c], |current|);
    assert current[..|current|] == current;
  }

  // Text copied behind the flags leaves their places alone.
  lemma {:induction false} CopiedPlaces(current: string, more: string, flags: seq<nat>)
    requires forall k :: 0 <= k < |flags| ==> flags[k] <= |current|
    ensures Places(current + more, flags) == Places(current, flags)
  {
    hide Place;
    forall k | 0 <= k < |flags| ensures Place(current + more, flags[k]) == Place(current, flags[k]) {
      PlaceInFront(current, more, flags[k]);
    }
  }

  // Taking a stage subtracts the bytes of the leading blanks: the places in the trimmed text.
  lemma {:induction false} ShiftedPlaces(current: string, flags: seq<nat>)
    requires forall k :: 0 <= k < |flags| ==> FlagGrowing(current, flags[k]) && flags[k] < |current|
    ensures var lead := LeadEnd(current, 0);
            var leading := |EncodeAll(current)| - |EncodeAll(TrimStart(current))|;
            && leading == Place(current, lead)
            && (forall k :: 0 <= k < |flags| ==> lead <= flags[k] && flags[k] - lead < |Trim(current)|)
            && (forall k :: 0 <= k < |flags| ==> leading <= Places(current, flags)[k])
            && Shift(Places(current, flags), leading) == Places(Trim(current), Shift(flags, lead))
  {
    hide Place, EncodeAll, FlagGrowing, Trim, Boundary;
    var lead := LeadEnd(current, 0);
    LeadingBytes(current);
    forall k | 0 <= k < |flags|
      ensures lead <= flags[k] && flags[k] - lead < |Trim(current)|
      ensures Place(current, flags[k]) == Place(current, lead) + Place(Trim(current), flags[k] - lead)
    {
      FlagInTrimmed(current, flags[k]);
      PlaceBehind(current, lead, flags[k] - lead);
      TrimIsFront(current);
      PlaceInFront(Trim(current), TrimStart(current)[|Trim(current)|..], flags[k] - lead);
    }
  }

  lemma {:induction false} LeadingBytes(current: string)
    ensures |EncodeAll(current)| - |EncodeAll(TrimStart(current))| == Place(current, LeadEnd(current, 0))
  {
    hide EncodeAll, IsSpace, Boundary;
    PlaceCuts(current, LeadEnd(current, 0));
  }

  lemma {:induction false} TrimIsFront(s: string)
    ensures |Trim(s)| <= |TrimStart(s)|
    ensures TrimStart(s) == Trim(s) + TrimStart(s)[|Trim(s)|..]
    ensures TrimStart(s) == s[LeadEnd(s, 0)..]
  {
    hide IsSpace, LeadEnd, TailStart;
  }

  // Removing a keyword keeps, in bytes, the flags it keeps in characters, at their places.
  lemma {:induction false} LaterPlaces(text: string, flags: seq<nat>, removed: nat)
    requires removed <= |text| && forall k :: 0 <= k < |flags| ==> flags[k] <= |text|
    ensures forall k :: 0 <= k < |LaterFlags(flags, removed)| ==> LaterFlags(flags, removed)[k] <= |text| - removed
    ensures LaterFlags(Places(text, flags), Place(text, removed)) == Places(text[removed..], LaterFlags(flags, removed))
  {
    hide Place;
    if flags != [] {
      LaterPlaces(text, flags[1..], removed);
      assert Places(text, flags)[1..] == Places(text, flags[1..]);
      if flags[0] <= removed {
        PlaceGrows(text, flags[0], removed);
      } else {
        PlaceGrows(text, removed, flags[0]);
        PlaceBehind(text, removed, flags[0] - removed);
        var rest := LaterFlags(flags[1..], removed);
        assert Places(text[removed..], [flags[0] - removed] + rest) ==
               [Place(text[removed..], flags[0] - removed)] + Places(text[removed..], rest);
      }
    }
  }

  // `text.len() - remaining.len()`: what a keyword takes away, in bytes.
  lemma {:induction false} RemovedBytes(stage: Stage)
    requires StageOk(stage)
    ensures var removed := |stage.text| - |AfterWord(stage).text|;
            && 0 <= removed <= |stage.text|
            && |EncodeAll(stage.text)| - |EncodeAll(AfterWord(stage).text)| == Place(stage.text, removed)
  {
    hide EncodeAll, StageOk, AfterWord, Boundary;
    AfterWordSlice(stage);
    PlaceCuts(stage.text, |stage.text| - |AfterWord(stage).text|);
  }
}

/**
 * The s_names2actions table of src/misc/actions.c: the action names, in
 * strcmp order, each with its action identifier.
 *
 * The ACTIONID_* values come from vlc_actions.h, which is not part of this
 * model: an action identifier is a constructor of ActionId, ACTIONID_NONE
 * is ActionNone, and the two wheel combinations that have no name in the
 * table close the list.
 */
module ActionTable {
  import opened CStrings

  datatype ActionId =
      ActionNone | AspectRatio | AudioTrack | AudiodelayDown | AudiodelayUp | AudiodeviceCycle
    | ChapterNext | ChapterPrev | PlayClear | Crop | CropBottom | CropLeft | CropRight | CropTop
    | ScaleDown | Deinterlace | DeinterlaceMode | DiscMenu | Faster | FrameNext | ScaleUp
    | IntfBoss | IntfPopupMenu | IntfToggleFsc | JumpForwardExtrashort | JumpForwardLong
    | JumpForwardMedium | JumpForwardShort | JumpBackwardExtrashort | JumpBackwardLong
    | JumpBackwardMedium | JumpBackwardShort | LeaveFullscreen | Loop | NavActivate | NavDown
    | NavLeft | NavRight | NavUp | Next | Pause | Play | PlayBookmark1 | PlayBookmark10
    | PlayBookmark2 | PlayBookmark3 | PlayBookmark4 | PlayBookmark5 | PlayBookmark6 | PlayBookmark7
    | PlayBookmark8 | PlayBookmark9 | PlayPause | Position | Prev | ProgramSidNext | ProgramSidPrev
    | Quit | Random | RateFasterFine | RateNormal | RateSlowerFine | Record | SetBookmark1
    | SetBookmark10 | SetBookmark2 | SetBookmark3 | SetBookmark4 | SetBookmark5 | SetBookmark6
    | SetBookmark7 | SetBookmark8 | SetBookmark9 | Slower | Snapshot | Stop | SubdelayDown
    | SubdelayUp | SubposDown | SubposUp | SubsyncApply | SubsyncMarkaudio | SubsyncMarksub
    | SubsyncReset | SubtitleReverseTrack | SubtitleTextScaleDown | SubtitleTextScaleNormal
    | SubtitleTextScaleUp | SubtitleToggle | SubtitleTrack | TitleNext | TitlePrev
    | ToggleAutoscale | ToggleFullscreen | UncropBottom | UncropLeft | UncropRight | UncropTop
    | Unzoom | ViewpointFovIn | ViewpointFovOut | ViewpointRollAnticlock | ViewpointRollClock
    | VolDown | VolMute | VolUp | Wallpaper | Zoom | ZoomDouble | ZoomHalf | ZoomOriginal
    | ZoomQuarter | ComboVolFovUp | ComboVolFovDown

  /** MAXACTION: the size of the array that holds a name in the table. */
  const MaxAction: nat := 26

  /** The table, written in rows of six entries. */
  const ActionNames0: seq<string> := ["aspect-ratio", "audio-track", "audiodelay-down", "audiodelay-up", "audiodevice-cycle", "chapter-next"]
  const ActionNames1: seq<string> := ["chapter-prev", "clear-playlist", "crop", "crop-bottom", "crop-left", "crop-right"]
  const ActionNames2: seq<string> := ["crop-top", "decr-scalefactor", "deinterlace", "deinterlace-mode", "disc-menu", "faster"]
  const ActionNames3: seq<string> := ["frame-next", "incr-scalefactor", "intf-boss", "intf-popup-menu", "intf-show", "jump+extrashort"]
  const ActionNames4: seq<string> := ["jump+long", "jump+medium", "jump+short", "jump-extrashort", "jump-long", "jump-medium"]
  const ActionNames5: seq<string> := ["jump-short", "leave-fullscreen", "loop", "nav-activate", "nav-down", "nav-left"]
  const ActionNames6: seq<string> := ["nav-right", "nav-up", "next", "pause", "play", "play-bookmark1"]
  const ActionNames7: seq<string> := ["play-bookmark10", "play-bookmark2", "play-bookmark3", "play-bookmark4", "play-bookmark5", "play-bookmark6"]
  const ActionNames8: seq<string> := ["play-bookmark7", "play-bookmark8", "play-bookmark9", "play-pause", "position", "prev"]
  const ActionNames9: seq<string> := ["program-sid-next", "program-sid-prev", "quit", "random", "rate-faster-fine", "rate-normal"]
  const ActionNames10: seq<string> := ["rate-slower-fine", "record", "set-bookmark1", "set-bookmark10", "set-bookmark2", "set-bookmark3"]
  const ActionNames11: seq<string> := ["set-bookmark4", "set-bookmark5", "set-bookmark6", "set-bookmark7", "set-bookmark8", "set-bookmark9"]
  const ActionNames12: seq<string> := ["slower", "snapshot", "stop", "subdelay-down", "subdelay-up", "subpos-down"]
  const ActionNames13: seq<string> := ["subpos-up", "subsync-apply", "subsync-markaudio", "subsync-marksub", "subsync-reset", "subtitle-revtrack"]
  const ActionNames14: seq<string> := ["subtitle-text-scale-down", "subtitle-text-scale-normal", "subtitle-text-scale-up", "subtitle-toggle", "subtitle-track", "title-next"]
  const ActionNames15: seq<string> := ["title-prev", "toggle-autoscale", "toggle-fullscreen", "uncrop-bottom", "uncrop-left", "uncrop-right"]
  const ActionNames16: seq<string> := ["uncrop-top", "unzoom", "viewpoint-fov-in", "viewpoint-fov-out", "viewpoint-roll-anticlock", "viewpoint-roll-clock"]
  const ActionNames17: seq<string> := ["vol-down", "vol-mute", "vol-up", "wallpaper", "zoom", "zoom-double"]
  const ActionNames18: seq<string> := ["zoom-half", "zoom-original", "zoom-quarter"]

  const ActionIds0: seq<ActionId> := [AspectRatio, AudioTrack, AudiodelayDown, AudiodelayUp, AudiodeviceCycle, ChapterNext]
  const ActionIds1: seq<ActionId> := [ChapterPrev, PlayClear, Crop, CropBottom, CropLeft, CropRight]
  const ActionIds2: seq<ActionId> := [CropTop, ScaleDown, Deinterlace, DeinterlaceMode, DiscMenu, Faster]
  const ActionIds3: seq<ActionId> := [FrameNext, ScaleUp, IntfBoss, IntfPopupMenu, IntfToggleFsc, JumpForwardExtrashort]
  const ActionIds4: seq<ActionId> := [JumpForwardLong, JumpForwardMedium, JumpForwardShort, JumpBackwardExtrashort, JumpBackwardLong, JumpBackwardMedium]
  const ActionIds5: seq<ActionId> := [JumpBackwardShort, LeaveFullscreen, Loop, NavActivate, NavDown, NavLeft]
  const ActionIds6: seq<ActionId> := [NavRight, NavUp, Next, Pause, Play, PlayBookmark1]
  const ActionIds7: seq<ActionId> := [PlayBookmark10, PlayBookmark2, PlayBookmark3, PlayBookmark4, PlayBookmark5, PlayBookmark6]
  const ActionIds8: seq<ActionId> := [PlayBookmark7, PlayBookmark8, PlayBookmark9, PlayPause, Position, Prev]
  const ActionIds9: seq<ActionId> := [ProgramSidNext, ProgramSidPrev, Quit, Random, RateFasterFine, RateNormal]
  const ActionIds10: seq<ActionId> := [RateSlowerFine, Record, SetBookmark1, SetBookmark10, SetBookmark2, SetBookmark3]
  const ActionIds11: seq<ActionId> := [SetBookmark4, SetBookmark5, SetBookmark6, SetBookmark7, SetBookmark8, SetBookmark9]
  const ActionIds12: seq<ActionId> := [Slower, Snapshot, Stop, SubdelayDown, SubdelayUp, SubposDown]
  const ActionIds13: seq<ActionId> := [SubposUp, SubsyncApply, SubsyncMarkaudio, SubsyncMarksub, SubsyncReset, SubtitleReverseTrack]
  const ActionIds14: seq<ActionId> := [SubtitleTextScaleDown, SubtitleTextScaleNormal, SubtitleTextScaleUp, SubtitleToggle, SubtitleTrack, TitleNext]
  const ActionIds15: seq<ActionId> := [TitlePrev, ToggleAutoscale, ToggleFullscreen, UncropBottom, UncropLeft, UncropRight]
  const ActionIds16: seq<ActionId> := [UncropTop, Unzoom, ViewpointFovIn, ViewpointFovOut, ViewpointRollAnticlock, ViewpointRollClock]
  const ActionIds17: seq<ActionId> := [VolDown, VolMute, VolUp, Wallpaper, Zoom, ZoomDouble]
  const ActionIds18: seq<ActionId> := [ZoomHalf, ZoomOriginal, ZoomQuarter]

  const ActionNamesPart0: seq<string> := ActionNames0 + ActionNames1 + ActionNames2 + ActionNames3 + ActionNames4
  const ActionIdsPart0: seq<ActionId> := ActionIds0 + ActionIds1 + ActionIds2 + ActionIds3 + ActionIds4
  const ActionNamesPart1: seq<string> := ActionNames5 + ActionNames6 + ActionNames7 + ActionNames8 + ActionNames9
  const ActionIdsPart1: seq<ActionId> := ActionIds5 + ActionIds6 + ActionIds7 + ActionIds8 + ActionIds9
  const ActionNamesPart2: seq<string> := ActionNames10 + ActionNames11 + ActionNames12 + ActionNames13 + ActionNames14
  const ActionIdsPart2: seq<ActionId> := ActionIds10 + ActionIds11 + ActionIds12 + ActionIds13 + ActionIds14
  const ActionNamesPart3: seq<string> := ActionNames15 + ActionNames16 + ActionNames17 + ActionNames18
  const ActionIdsPart3: seq<ActionId> := ActionIds15 + ActionIds16 + ActionIds17 + ActionIds18

  const ActionNames: seq<string> := ActionNamesPart0 + ActionNamesPart1 + ActionNamesPart2 + ActionNamesPart3
  const ActionIds: seq<ActionId> := ActionIdsPart0 + ActionIdsPart1 + ActionIdsPart2 + ActionIdsPart3

  lemma ActionNames0Sorted()
    ensures StrictlySorted(ActionNames0)
  {
    forall i | 0 < i < |ActionNames0| ensures StrLess(ActionNames0[i - 1], ActionNames0[i]) {
      if i == 1 {
        assert LessAt(ActionNames0[0], ActionNames0[1], 1);
      } else if i == 2 {
        assert LessAt(ActionNames0[1], ActionNames0[2], 5);
      } else if i == 3 {
        assert LessAt(ActionNames0[2], ActionNames0[3], 11);
      } else if i == 4 {
        assert LessAt(ActionNames0[3], ActionNames0[4], 7);
      } else {
        assert LessAt(ActionNames0[4], ActionNames0[5], 0);
      }
    }
  }

  lemma ActionRow0Fits()
    ensures forall n | n in ActionNames0 :: |n| <= MaxAction
    ensures forall a | a in ActionIds0 :: a != ActionNone
  {
  }

  lemma ActionNames1Sorted()
    ensures StrictlySorted(ActionNames1)
  {
    forall i | 0 < i < |ActionNames1| ensures StrLess(ActionNames1[i - 1], ActionNames1[i]) {
      if i == 1 {
        assert LessAt(ActionNames1[0], ActionNames1[1], 1);
      } else if i == 2 {
        assert LessAt(ActionNames1[1], ActionNames1[2], 1);
      } else if i == 3 {
        assert LessAt(ActionNames1[2], ActionNames1[3], 4);
      } else if i == 4 {
        assert LessAt(ActionNames1[3], ActionNames1[4], 5);
      } else {
        assert LessAt(ActionNames1[4], ActionNames1[5], 5);
      }
    }
  }

  lemma ActionRow1Fits()
    ensures forall n | n in ActionNames1 :: |n| <= MaxAction
    ensures forall a | a in ActionIds1 :: a != ActionNone
  {
  }

  lemma ActionNames2Sorted()
    ensures StrictlySorted(ActionNames2)
  {
    forall i | 0 < i < |ActionNames2| ensures StrLess(ActionNames2[i - 1], ActionNames2[i]) {
      if i == 1 {
        assert LessAt(ActionNames2[0], ActionNames2[1], 0);
      } else if i == 2 {
        assert LessAt(ActionNames2[1], ActionNames2[2], 2);
      } else if i == 3 {
        assert LessAt(ActionNames2[2], ActionNames2[3], 11);
      } else if i == 4 {
        assert LessAt(ActionNames2[3], ActionNames2[4], 1);
      } else {
        assert LessAt(ActionNames2[4], ActionNames2[5], 0);
      }
    }
  }

  lemma ActionRow2Fits()
    ensures forall n | n in ActionNames2 :: |n| <= MaxAction
    ensures forall a | a in ActionIds2 :: a != ActionNone
  {
  }

  lemma ActionNames3Sorted()
    ensures StrictlySorted(ActionNames3)
  {
    forall i | 0 < i < |ActionNames3| ensures StrLess(ActionNames3[i - 1], ActionNames3[i]) {
      if i == 1 {
        assert LessAt(ActionNames3[0], ActionNames3[1], 0);
      } else if i == 2 {
        assert LessAt(ActionNames3[1], ActionNames3[2], 2);
      } else if i == 3 {
        assert LessAt(ActionNames3[2], ActionNames3[3], 5);
      } else if i == 4 {
        assert LessAt(ActionNames3[3], ActionNames3[4], 5);
      } else {
        assert LessAt(ActionNames3[4], ActionNames3[5], 0);
      }
    }
  }

  lemma ActionRow3Fits()
    ensures forall n | n in ActionNames3 :: |n| <= MaxAction
    ensures forall a | a in ActionIds3 :: a != ActionNone
  {
  }

  lemma ActionNames4Sorted()
    ensures StrictlySorted(ActionNames4)
  {
    forall i | 0 < i < |ActionNames4| ensures StrLess(ActionNames4[i - 1], ActionNames4[i]) {
      if i == 1 {
        assert LessAt(ActionNames4[0], ActionNames4[1], 5);
      } else if i == 2 {
        assert LessAt(ActionNames4[1], ActionNames4[2], 5);
      } else if i == 3 {
        assert LessAt(ActionNames4[2], ActionNames4[3], 4);
      } else if i == 4 {
        assert LessAt(ActionNames4[3], ActionNames4[4], 5);
      } else {
        assert LessAt(ActionNames4[4], ActionNames4[5], 5);
      }
    }
  }

  lemma ActionRow4Fits()
    ensures forall n | n in ActionNames4 :: |n| <= MaxAction
    ensures forall a | a in ActionIds4 :: a != ActionNone
  {
  }

  lemma ActionNames5Sorted()
    ensures StrictlySorted(ActionNames5)
  {
    forall i | 0 < i < |ActionNames5| ensures StrLess(ActionNames5[i - 1], ActionNames5[i]) {
      if i == 1 {
        assert LessAt(ActionNames5[0], ActionNames5[1], 0);
      } else if i == 2 {
        assert LessAt(ActionNames5[1], ActionNames5[2], 1);
      } else if i == 3 {
        assert LessAt(ActionNames5[2], ActionNames5[3], 0);
      } else if i == 4 {
        assert LessAt(ActionNames5[3], ActionNames5[4], 4);
      } else {
        assert LessAt(ActionNames5[4], ActionNames5[5], 4);
      }
    }
  }

  lemma ActionRow5Fits()
    ensures forall n | n in ActionNames5 :: |n| <= MaxAction
    ensures forall a | a in ActionIds5 :: a != ActionNone
  {
  }

  lemma ActionNames6Sorted()
    ensures StrictlySorted(ActionNames6)
  {
    forall i | 0 < i < |ActionNames6| ensures StrLess(ActionNames6[i - 1], ActionNames6[i]) {
      if i == 1 {
        assert LessAt(ActionNames6[0], ActionNames6[1], 4);
      } else if i == 2 {
        assert LessAt(ActionNames6[1], ActionNames6[2], 1);
      } else if i == 3 {
        assert LessAt(ActionNames6[2], ActionNames6[3], 0);
      } else if i == 4 {
        assert LessAt(ActionNames6[3], ActionNames6[4], 1);
      } else {
        assert LessAt(ActionNames6[4], ActionNames6[5], 4);
      }
    }
  }

  lemma ActionRow6Fits()
    ensures forall n | n in ActionNames6 :: |n| <= MaxAction
    ensures forall a | a in ActionIds6 :: a != ActionNone
  {
  }

  lemma ActionNames7Sorted()
    ensures StrictlySorted(ActionNames7)
  {
    forall i | 0 < i < |ActionNames7| ensures StrLess(ActionNames7[i - 1], ActionNames7[i]) {
      if i == 1 {
        assert LessAt(ActionNames7[0], ActionNames7[1], 13);
      } else if i == 2 {
        assert LessAt(ActionNames7[1], ActionNames7[2], 13);
      } else if i == 3 {
        assert LessAt(ActionNames7[2], ActionNames7[3], 13);
      } else if i == 4 {
        assert LessAt(ActionNames7[3], ActionNames7[4], 13);
      } else {
        assert LessAt(ActionNames7[4], ActionNames7[5], 13);
      }
    }
  }

  lemma ActionRow7Fits()
    ensures forall n | n in ActionNames7 :: |n| <= MaxAction
    ensures forall a | a in ActionIds7 :: a != ActionNone
  {
  }

  lemma ActionNames8Sorted()
    ensures StrictlySorted(ActionNames8)
  {
    forall i | 0 < i < |ActionNames8| ensures StrLess(ActionNames8[i - 1], ActionNames8[i]) {
      if i == 1 {
        assert LessAt(ActionNames8[0], ActionNames8[1], 13);
      } else if i == 2 {
        assert LessAt(ActionNames8[1], ActionNames8[2], 13);
      } else if i == 3 {
        assert LessAt(ActionNames8[2], ActionNames8[3], 5);
      } else if i == 4 {
        assert LessAt(ActionNames8[3], ActionNames8[4], 1);
      } else {
        assert LessAt(ActionNames8[4], ActionNames8[5], 1);
      }
    }
  }

  lemma ActionRow8Fits()
    ensures forall n | n in ActionNames8 :: |n| <= MaxAction
    ensures forall a | a in ActionIds8 :: a != ActionNone
  {
  }

  lemma ActionNames9Sorted()
    ensures StrictlySorted(ActionNames9)
  {
    forall i | 0 < i < |ActionNames9| ensures StrLess(ActionNames9[i - 1], ActionNames9[i]) {
      if i == 1 {
        assert LessAt(ActionNames9[0], ActionNames9[1], 12);
      } else if i == 2 {
        assert LessAt(ActionNames9[1], ActionNames9[2], 0);
      } else if i == 3 {
        assert LessAt(ActionNames9[2], ActionNames9[3], 0);
      } else if i == 4 {
        assert LessAt(ActionNames9[3], ActionNames9[4], 2);
      } else {
        assert LessAt(ActionNames9[4], ActionNames9[5], 5);
      }
    }
  }

  lemma ActionRow9Fits()
    ensures forall n | n in ActionNames9 :: |n| <= MaxAction
    ensures forall a | a in ActionIds9 :: a != ActionNone
  {
  }

  lemma ActionNames10Sorted()
    ensures StrictlySorted(ActionNames10)
  {
    forall i | 0 < i < |ActionNames10| ensures StrLess(ActionNames10[i - 1], ActionNames10[i]) {
      if i == 1 {
        assert LessAt(ActionNames10[0], ActionNames10[1], 1);
      } else if i == 2 {
        assert LessAt(ActionNames10[1], ActionNames10[2], 0);
      } else if i == 3 {
        assert LessAt(ActionNames10[2], ActionNames10[3], 13);
      } else if i == 4 {
        assert LessAt(ActionNames10[3], ActionNames10[4], 12);
      } else {
        assert LessAt(ActionNames10[4], ActionNames10[5], 12);
      }
    }
  }

  lemma ActionRow10Fits()
    ensures forall n | n in ActionNames10 :: |n| <= MaxAction
    ensures forall a | a in ActionIds10 :: a != ActionNone
  {
  }

  lemma ActionNames11Sorted()
    ensures StrictlySorted(ActionNames11)
  {
    forall i | 0 < i < |ActionNames11| ensures StrLess(ActionNames11[i - 1], ActionNames11[i]) {
      if i == 1 {
        assert LessAt(ActionNames11[0], ActionNames11[1], 12);
      } else if i == 2 {
        assert LessAt(ActionNames11[1], ActionNames11[2], 12);
      } else if i == 3 {
        assert LessAt(ActionNames11[2], ActionNames11[3], 12);
      } else if i == 4 {
        assert LessAt(ActionNames11[3], ActionNames11[4], 12);
      } else {
        assert LessAt(ActionNames11[4], ActionNames11[5], 12);
      }
    }
  }

  lemma ActionRow11Fits()
    ensures forall n | n in ActionNames11 :: |n| <= MaxAction
    ensures forall a | a in ActionIds11 :: a != ActionNone
  {
  }

  lemma ActionNames12Sorted()
    ensures StrictlySorted(ActionNames12)
  {
    forall i | 0 < i < |ActionNames12| ensures StrLess(ActionNames12[i - 1], ActionNames12[i]) {
      if i == 1 {
        assert LessAt(ActionNames12[0], ActionNames12[1], 1);
      } else if i == 2 {
        assert LessAt(ActionNames12[1], ActionNames12[2], 1);
      } else if i == 3 {
        assert LessAt(ActionNames12[2], ActionNames12[3], 1);
      } else if i == 4 {
        assert LessAt(ActionNames12[3], ActionNames12[4], 9);
      } else {
        assert LessAt(ActionNames12[4], ActionNames12[5], 3);
      }
    }
  }

  lemma ActionRow12Fits()
    ensures forall n | n in ActionNames12 :: |n| <= MaxAction
    ensures forall a | a in ActionIds12 :: a != ActionNone
  {
  }

  lemma ActionNames13Sorted()
    ensures StrictlySorted(ActionNames13)
  {
    forall i | 0 < i < |ActionNames13| ensures StrLess(ActionNames13[i - 1], ActionNames13[i]) {
      if i == 1 {
        assert LessAt(ActionNames13[0], ActionNames13[1], 3);
      } else if i == 2 {
        assert LessAt(ActionNames13[1], ActionNames13[2], 8);
      } else if i == 3 {
        assert LessAt(ActionNames13[2], ActionNames13[3], 12);
      } else if i == 4 {
        assert LessAt(ActionNames13[3], ActionNames13[4], 8);
      } else {
        assert LessAt(ActionNames13[4], ActionNames13[5], 3);
      }
    }
  }

  lemma ActionRow13Fits()
    ensures forall n | n in ActionNames13 :: |n| <= MaxAction
    ensures forall a | a in ActionIds13 :: a != ActionNone
  {
  }

  lemma ActionNames14Sorted()
    ensures StrictlySorted(ActionNames14)
  {
    forall i | 0 < i < |ActionNames14| ensures StrLess(ActionNames14[i - 1], ActionNames14[i]) {
      if i == 1 {
        assert LessAt(ActionNames14[0], ActionNames14[1], 20);
      } else if i == 2 {
        assert LessAt(ActionNames14[1], ActionNames14[2], 20);
      } else if i == 3 {
        assert LessAt(ActionNames14[2], ActionNames14[3], 10);
      } else if i == 4 {
        assert LessAt(ActionNames14[3], ActionNames14[4], 10);
      } else {
        assert LessAt(ActionNames14[4], ActionNames14[5], 0);
      }
    }
  }

  lemma ActionRow14Fits()
    ensures forall n | n in ActionNames14 :: |n| <= MaxAction
    ensures forall a | a in ActionIds14 :: a != ActionNone
  {
  }

  lemma ActionNames15Sorted()
    ensures StrictlySorted(ActionNames15)
  {
    forall i | 0 < i < |ActionNames15| ensures StrLess(ActionNames15[i - 1], ActionNames15[i]) {
      if i == 1 {
        assert LessAt(ActionNames15[0], ActionNames15[1], 1);
      } else if i == 2 {
        assert LessAt(ActionNames15[1], ActionNames15[2], 7);
      } else if i == 3 {
        assert LessAt(ActionNames15[2], ActionNames15[3], 0);
      } else if i == 4 {
        assert LessAt(ActionNames15[3], ActionNames15[4], 7);
      } else {
        assert LessAt(ActionNames15[4], ActionNames15[5], 7);
      }
    }
  }

  lemma ActionRow15Fits()
    ensures forall n | n in ActionNames15 :: |n| <= MaxAction
    ensures forall a | a in ActionIds15 :: a != ActionNone
  {
  }

  lemma ActionNames16Sorted()
    ensures StrictlySorted(ActionNames16)
  {
    forall i | 0 < i < |ActionNames16| ensures StrLess(ActionNames16[i - 1], ActionNames16[i]) {
      if i == 1 {
        assert LessAt(ActionNames16[0], ActionNames16[1], 2);
      } else if i == 2 {
        assert LessAt(ActionNames16[1], ActionNames16[2], 0);
      } else if i == 3 {
        assert LessAt(ActionNames16[2], ActionNames16[3], 14);
      } else if i == 4 {
        assert LessAt(ActionNames16[3], ActionNames16[4], 10);
      } else {
        assert LessAt(ActionNames16[4], ActionNames16[5], 15);
      }
    }
  }

  lemma ActionRow16Fits()
    ensures forall n | n in ActionNames16 :: |n| <= MaxAction
    ensures forall a | a in ActionIds16 :: a != ActionNone
  {
  }

  lemma ActionNames17Sorted()
    ensures StrictlySorted(ActionNames17)
  {
    forall i | 0 < i < |ActionNames17| ensures StrLess(ActionNames17[i - 1], ActionNames17[i]) {
      if i == 1 {
        assert LessAt(ActionNames17[0], ActionNames17[1], 4);
      } else if i == 2 {
        assert LessAt(ActionNames17[1], ActionNames17[2], 4);
      } else if i == 3 {
        assert LessAt(ActionNames17[2], ActionNames17[3], 0);
      } else if i == 4 {
        assert LessAt(ActionNames17[3], ActionNames17[4], 0);
      } else {
        assert LessAt(ActionNames17[4], ActionNames17[5], 4);
      }
    }
  }

  lemma ActionRow17Fits()
    ensures forall n | n in ActionNames17 :: |n| <= MaxAction
    ensures forall a | a in ActionIds17 :: a != ActionNone
  {
  }

  lemma ActionNames18Sorted()
    ensures StrictlySorted(ActionNames18)
  {
    forall i | 0 < i < |ActionNames18| ensures StrLess(ActionNames18[i - 1], ActionNames18[i]) {
      if i == 1 {
        assert LessAt(ActionNames18[0], ActionNames18[1], 5);
      } else {
        assert LessAt(ActionNames18[1], ActionNames18[2], 5);
      }
    }
  }

  lemma ActionRow18Fits()
    ensures forall n | n in ActionNames18 :: |n| <= MaxAction
    ensures forall a | a in ActionIds18 :: a != ActionNone
  {
  }

  lemma ActionPrefix1()
    ensures StrictlySorted(ActionNames0 + ActionNames1)
    ensures forall n | n in ActionNames0 + ActionNames1 :: |n| <= MaxAction
    ensures forall a | a in ActionIds0 + ActionIds1 :: a != ActionNone
  {
    ActionNames0Sorted();
    ActionRow0Fits();
    ActionNames1Sorted();
    ActionRow1Fits();
    assert LessAt(ActionNames0[5], ActionNames1[0], 8);
    SortedAppend(ActionNames0, ActionNames1);
  }

  lemma ActionPrefix2()
    ensures StrictlySorted(ActionNames0 + ActionNames1 + ActionNames2)
    ensures forall n | n in ActionNames0 + ActionNames1 + ActionNames2 :: |n| <= MaxAction
    ensures forall a | a in ActionIds0 + ActionIds1 + ActionIds2 :: a != ActionNone
  {
    ActionPrefix1();
    ActionNames2Sorted();
    ActionRow2Fits();
    assert LessAt(ActionNames1[5], ActionNames2[0], 5);
    SortedAppend(ActionNames0 + ActionNames1, ActionNames2);
  }

  lemma ActionPrefix3()
    ensures StrictlySorted(ActionNames0 + ActionNames1 + ActionNames2 + ActionNames3)
    ensures forall n | n in ActionNames0 + ActionNames1 + ActionNames2 + ActionNames3 :: |n| <= MaxAction
    ensures forall a | a in ActionIds0 + ActionIds1 + ActionIds2 + ActionIds3 :: a != ActionNone
  {
    ActionPrefix2();
    ActionNames3Sorted();
    ActionRow3Fits();
    assert LessAt(ActionNames2[5], ActionNames3[0], 1);
    SortedAppend(ActionNames0 + ActionNames1 + ActionNames2, ActionNames3);
  }

  lemma ActionPrefix4()
    ensures StrictlySorted(ActionNames0 + ActionNames1 + ActionNames2 + ActionNames3 + ActionNames4)
    ensures forall n | n in ActionNames0 + ActionNames1 + ActionNames2 + ActionNames3 + ActionNames4 :: |n| <= MaxAction
    ensures forall a | a in ActionIds0 + ActionIds1 + ActionIds2 + ActionIds3 + ActionIds4 :: a != ActionNone
  {
    ActionPrefix3();
    ActionNames4Sorted();
    ActionRow4Fits();
    assert LessAt(ActionNames3[5], ActionNames4[0], 5);
    SortedAppend(ActionNames0 + ActionNames1 + ActionNames2 + ActionNames3, ActionNames4);
  }

  lemma ActionPrefix6()
    ensures StrictlySorted(ActionNames5 + ActionNames6)
    ensures forall n | n in ActionNames5 + ActionNames6 :: |n| <= MaxAction
    ensures forall a | a in ActionIds5 + ActionIds6 :: a != ActionNone
  {
    ActionNames5Sorted();
    ActionRow5Fits();
    ActionNames6Sorted();
    ActionRow6Fits();
    assert LessAt(ActionNames5[5], ActionNames6[0], 4);
    SortedAppend(ActionNames5, ActionNames6);
  }

  lemma ActionPrefix7()
    ensures StrictlySorted(ActionNames5 + ActionNames6 + ActionNames7)
    ensures forall n | n in ActionNames5 + ActionNames6 + ActionNames7 :: |n| <= MaxAction
    ensures forall a | a in ActionIds5 + ActionIds6 + ActionIds7 :: a != ActionNone
  {
    ActionPrefix6();
    ActionNames7Sorted();
    ActionRow7Fits();
    assert LessAt(ActionNames6[5], ActionNames7[0], 14);
    SortedAppend(ActionNames5 + ActionNames6, ActionNames7);
  }

  lemma ActionPrefix8()
    ensures StrictlySorted(ActionNames5 + ActionNames6 + ActionNames7 + ActionNames8)
    ensures forall n | n in ActionNames5 + ActionNames6 + ActionNames7 + ActionNames8 :: |n| <= MaxAction
    ensures forall a | a in ActionIds5 + ActionIds6 + ActionIds7 + ActionIds8 :: a != ActionNone
  {
    ActionPrefix7();
    ActionNames8Sorted();
    ActionRow8Fits();
    assert LessAt(ActionNames7[5], ActionNames8[0], 13);
    SortedAppend(ActionNames5 + ActionNames6 + ActionNames7, ActionNames8);
  }

  lemma ActionPrefix9()
    ensures StrictlySorted(ActionNames5 + ActionNames6 + ActionNames7 + ActionNames8 + ActionNames9)
    ensures forall n | n in ActionNames5 + ActionNames6 + ActionNames7 + ActionNames8 + ActionNames9 :: |n| <= MaxAction
    ensures forall a | a in ActionIds5 + ActionIds6 + ActionIds7 + ActionIds8 + ActionIds9 :: a != ActionNone
  {
    ActionPrefix8();
    ActionNames9Sorted();
    ActionRow9Fits();
    assert LessAt(ActionNames8[5], ActionNames9[0], 2);
    SortedAppend(ActionNames5 + ActionNames6 + ActionNames7 + ActionNames8, ActionNames9);
  }

  lemma ActionPrefix11()
    ensures StrictlySorted(ActionNames10 + ActionNames11)
    ensures forall n | n in ActionNames10 + ActionNames11 :: |n| <= MaxAction
    ensures forall a | a in ActionIds10 + ActionIds11 :: a != ActionNone
  {
    ActionNames10Sorted();
    ActionRow10Fits();
    ActionNames11Sorted();
    ActionRow11Fits();
    assert LessAt(ActionNames10[5], ActionNames11[0], 12);
    SortedAppend(ActionNames10, ActionNames11);
  }

  lemma ActionPrefix12()
    ensures StrictlySorted(ActionNames10 + ActionNames11 + ActionNames12)
    ensures forall n | n in ActionNames10 + ActionNames11 + ActionNames12 :: |n| <= MaxAction
    ensures forall a | a in ActionIds10 + ActionIds11 + ActionIds12 :: a != ActionNone
  {
    ActionPrefix11();
    ActionNames12Sorted();
    ActionRow12Fits();
    assert LessAt(ActionNames11[5], ActionNames12[0], 1);
    SortedAppend(ActionNames10 + ActionNames11, ActionNames12);
  }

  lemma ActionPrefix13()
    ensures StrictlySorted(ActionNames10 + ActionNames11 + ActionNames12 + ActionNames13)
    ensures forall n | n in ActionNames10 + ActionNames11 + ActionNames12 + ActionNames13 :: |n| <= MaxAction
    ensures forall a | a in ActionIds10 + ActionIds11 + ActionIds12 + ActionIds13 :: a != ActionNone
  {
    ActionPrefix12();
    ActionNames13Sorted();
    ActionRow13Fits();
    assert LessAt(ActionNames12[5], ActionNames13[0], 7);
    SortedAppend(ActionNames10 + ActionNames11 + ActionNames12, ActionNames13);
  }

  lemma ActionPrefix14()
    ensures StrictlySorted(ActionNames10 + ActionNames11 + ActionNames12 + ActionNames13 + ActionNames14)
    ensures forall n | n in ActionNames10 + ActionNames11 + ActionNames12 + ActionNames13 + ActionNames14 :: |n| <= MaxAction
    ensures forall a | a in ActionIds10 + ActionIds11 + ActionIds12 + ActionIds13 + ActionIds14 :: a != ActionNone
  {
    ActionPrefix13();
    ActionNames14Sorted();
    ActionRow14Fits();
    assert LessAt(ActionNames13[5], ActionNames14[0], 9);
    SortedAppend(ActionNames10 + ActionNames11 + ActionNames12 + ActionNames13, ActionNames14);
  }

  lemma ActionPrefix16()
    ensures StrictlySorted(ActionNames15 + ActionNames16)
    ensures forall n | n in ActionNames15 + ActionNames16 :: |n| <= MaxAction
    ensures forall a | a in ActionIds15 + ActionIds16 :: a != ActionNone
  {
    ActionNames15Sorted();
    ActionRow15Fits();
    ActionNames16Sorted();
    ActionRow16Fits();
    assert LessAt(ActionNames15[5], ActionNames16[0], 7);
    SortedAppend(ActionNames15, ActionNames16);
  }

  lemma ActionPrefix17()
    ensures StrictlySorted(ActionNames15 + ActionNames16 + ActionNames17)
    ensures forall n | n in ActionNames15 + ActionNames16 + ActionNames17 :: |n| <= MaxAction
    ensures forall a | a in ActionIds15 + ActionIds16 + ActionIds17 :: a != ActionNone
  {
    ActionPrefix16();
    ActionNames17Sorted();
    ActionRow17Fits();
    assert LessAt(ActionNames16[5], ActionNames17[0], 1);
    SortedAppend(ActionNames15 + ActionNames16, ActionNames17);
  }

  lemma ActionPrefix18()
    ensures StrictlySorted(ActionNames15 + ActionNames16 + ActionNames17 + ActionNames18)
    ensures forall n | n in ActionNames15 + ActionNames16 + ActionNames17 + ActionNames18 :: |n| <= MaxAction
    ensures forall a | a in ActionIds15 + ActionIds16 + ActionIds17 + ActionIds18 :: a != ActionNone
  {
    ActionPrefix17();
    ActionNames18Sorted();
    ActionRow18Fits();
    assert LessAt(ActionNames17[5], ActionNames18[0], 5);
    SortedAppend(ActionNames15 + ActionNames16 + ActionNames17, ActionNames18);
  }

  lemma ActionParts1()
    ensures StrictlySorted(ActionNamesPart0 + ActionNamesPart1)
    ensures forall n | n in ActionNamesPart0 + ActionNamesPart1 :: |n| <= MaxAction
    ensures forall a | a in ActionIdsPart0 + ActionIdsPart1 :: a != ActionNone
  {
    ActionPrefix4();
    ActionPrefix9();
    assert LessAt(ActionNamesPart0[29], ActionNamesPart1[0], 5);
    SortedAppend(ActionNamesPart0, ActionNamesPart1);
  }

  lemma ActionParts2()
    ensures StrictlySorted(ActionNamesPart0 + ActionNamesPart1 + ActionNamesPart2)
    ensures forall n | n in ActionNamesPart0 + ActionNamesPart1 + ActionNamesPart2 :: |n| <= MaxAction
    ensures forall a | a in ActionIdsPart0 + ActionIdsPart1 + ActionIdsPart2 :: a != ActionNone
  {
    ActionParts1();
    ActionPrefix14();
    assert LessAt(ActionNamesPart1[29], ActionNamesPart2[0], 5);
    SortedAppend(ActionNamesPart0 + ActionNamesPart1, ActionNamesPart2);
  }

  lemma ActionParts3()
    ensures StrictlySorted(ActionNamesPart0 + ActionNamesPart1 + ActionNamesPart2 + ActionNamesPart3)
    ensures forall n | n in ActionNamesPart0 + ActionNamesPart1 + ActionNamesPart2 + ActionNamesPart3 :: |n| <= MaxAction
    ensures forall a | a in ActionIdsPart0 + ActionIdsPart1 + ActionIdsPart2 + ActionIdsPart3 :: a != ActionNone
  {
    ActionParts2();
    ActionPrefix18();
    assert LessAt(ActionNamesPart2[29], ActionNamesPart3[0], 6);
    SortedAppend(ActionNamesPart0 + ActionNamesPart1 + ActionNamesPart2, ActionNamesPart3);
  }

  /**
   * s_names2actions is in strictly increasing strcmp order, as bsearch and
   * the order check at initialisation require; no entry is ACTIONID_NONE
   * and every name fits in its MAXACTION-byte array.
   */
  lemma ActionTableFacts()
    ensures |ActionNames| == |ActionIds| == 111
    ensures StrictlySorted(ActionNames)
    ensures forall i | 0 <= i < |ActionIds| :: ActionIds[i] != ActionNone
    ensures forall i | 0 <= i < |ActionNames| :: |ActionNames[i]| <= MaxAction
  {
    ActionParts3();
    forall i | 0 <= i < |ActionIds| ensures ActionIds[i] != ActionNone {
      assert ActionIds[i] in ActionIds;
    }
    forall i | 0 <= i < |ActionNames| ensures |ActionNames[i]| <= MaxAction {
      assert ActionNames[i] in ActionNames;
    }
  }

  /** The two columns of the table have the same length. */
  lemma ActionTableSize()
    ensures |ActionNames| == |ActionIds| == 111
  {
  }

  /**
   * The longest name fills its array exactly, leaving no room for the
   * terminating NUL inside it; the string still ends because the zeroed
   * padding before the id follows it.
   */
  lemma LongestActionName()
    ensures ActionNames[85] == "subtitle-text-scale-normal" && |ActionNames[85]| == MaxAction
  {
    assert ActionNames[85] == ActionNames14[1];
  }
}

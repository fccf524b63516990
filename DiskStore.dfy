/** The polling variant of the bot (main.py): style references are image files
    named `{chat_id}_{ts}.jpg` in a styles directory that outlives the process,
    listed per chat by glob and sorted by name; the "set style" flag is kept in
    memory only. */
module DiskStore {

  import opened Wrappers
  import opened Caption
  import opened Compose
  import opened FileNames
  import opened Listing

  /** Which /status reply is sent. */
  datatype StatusReply = NothingSaved | SavedCount(count: nat)

  /** `glob.glob(f"{chat}_*{ext}")` over the directory's names. */
  function Glob(dir: set<string>, chat: int, ext: string): (found: set<string>)
    ensures forall f :: f in found <==> f in dir && MatchesGlob(f, chat, ext)
  {
    set f | f in dir && MatchesGlob(f, chat, ext)
  }

  /** The reference files of a chat among the names of a directory. */
  function Owned(dir: set<string>, chat: int): (owned: set<string>)
    ensures owned <= dir
    ensures forall f :: f in owned <==> f in dir && IsStyleFileOf(f, chat)
  {
    set f | f in dir && IsStyleFileOf(f, chat)
  }

  class Bot {
    /** the names of the files in the styles directory */
    var files: set<string>
    /** chat id -> whether the chat is in "set style" mode */
    var settingStyle: map<int, bool>

    /** `chat_is_setting_style[chat]` */
    function ModeOf(chat: int): bool
      reads this
    {
      chat in settingStyle && settingStyle[chat]
    }

    /** The chat's reference files: the names either glob pattern matches. */
    function ChatFiles(chat: int): set<string>
      reads this
    {
      Owned(files, chat)
    }

    /** The chat's references in the order they are used: sorted by name. */
    function Refs(chat: int): seq<string>
      reads this
    {
      SortedNames(ChatFiles(chat))
    }

    /** Start-up: the directory keeps whatever earlier runs saved, while every
        chat starts with the mode off. */
    constructor (existing: set<string>)
      ensures files == existing
      ensures forall chat :: !ModeOf(chat)
    {
      files := existing;
      settingStyle := map[];
    }

    /** get_style_images: the names matching `{chat}_*.jpg`, then those
        matching `{chat}_*.png`, all sorted. */
    method GetStyleImages(chat: int) returns (listing: seq<string>)
      ensures listing == Refs(chat)
      ensures forall f :: f in listing <==> f in files && IsStyleFileOf(f, chat)
      ensures StrictlySorted(listing)
    {
      var patterns := [".jpg", ".png"];
      var found: set<string> := {};
      for k := 0 to |patterns|
        invariant forall f :: f in found <==>
          f in files && exists j :: 0 <= j < k && MatchesGlob(f, chat, patterns[j])
      {
        found := found + Glob(files, chat, patterns[k]);
      }
      forall f | f in files && IsStyleFileOf(f, chat) ensures f in found {
        if MatchesGlob(f, chat, ".jpg") {
          assert MatchesGlob(f, chat, patterns[0]);
        } else {
          assert MatchesGlob(f, chat, patterns[1]);
        }
      }
      assert found == ChatFiles(chat);
      listing := SortedNames(found);
    }

    /** /set_style: turns the mode on for this chat; no file is touched. */
    method SetStyle(chat: int)
      modifies this
      ensures settingStyle == old(settingStyle)[chat := true]
      ensures files == old(files)
      ensures ModeOf(chat)
    {
      settingStyle := settingStyle[chat := true];
    }

    /** /done_style: turns the mode off and reports how many reference files
        the chat has. */
    method DoneStyle(chat: int) returns (count: nat)
      modifies this
      ensures settingStyle == old(settingStyle)[chat := false]
      ensures files == old(files)
      ensures !ModeOf(chat)
      ensures count == |ChatFiles(chat)|
    {
      settingStyle := settingStyle[chat := false];
      var listing := GetStyleImages(chat);
      count := |listing|;
    }

    /** /clear_style: tries to remove each listed file of the chat; a removal
        that fails (the names in `failing`) is logged and skipped. Files of
        other chats and the mode stay as they were. */
    method ClearStyle(chat: int, failing: set<string>)
      modifies this
      ensures files == old(files) - (old(ChatFiles(chat)) - failing)
      ensures settingStyle == old(settingStyle)
      ensures ChatFiles(chat) == old(ChatFiles(chat)) * failing
      ensures forall other :: other != chat ==> ChatFiles(other) == old(ChatFiles(other))
    {
      var listed := GetStyleImages(chat);
      for i := 0 to |listed|
        invariant settingStyle == old(settingStyle)
        invariant forall f :: f in files <==> f in old(files) && !(f in listed[..i] && f !in failing)
      {
        if listed[i] !in failing {
          files := files - {listed[i]};
        }
      }
      assert listed[..|listed|] == listed;
      forall other | other != chat ensures ChatFiles(other) == old(ChatFiles(other)) {
        forall f | f in old(ChatFiles(other)) ensures f in files {
          if f in listed {
            StyleFileOwnerUnique(f, chat, other);
          }
        }
      }
    }

    /** /status: the number of reference files, with its own reply when there
        are none. */
    method Status(chat: int) returns (reply: StatusReply)
      ensures reply.NothingSaved? <==> ChatFiles(chat) == {}
      ensures reply.SavedCount? ==> reply.count == |ChatFiles(chat)|
    {
      var listing := GetStyleImages(chat);
      var count := |listing|;
      if count == 0 {
        reply := NothingSaved;
      } else {
        reply := SavedCount(count);
      }
    }

    /** Writes the photo as `{chat}_{ts}.jpg` and reports the chat's new
        number of reference files. A file saved in the same millisecond is
        overwritten, so the count stays; other chats are unaffected; and a name
        that sorts after the chat's existing ones becomes its last reference. */
    method StoreReference(chat: int, ts: nat) returns (count: nat)
      modifies this
      ensures files == old(files) + {StyleFileName(chat, ts)}
      ensures settingStyle == old(settingStyle)
      ensures count == |ChatFiles(chat)|
      ensures count == |old(ChatFiles(chat))| + (if StyleFileName(chat, ts) in old(files) then 0 else 1)
      ensures forall other :: other != chat ==> ChatFiles(other) == old(ChatFiles(other))
      ensures (forall f :: f in old(ChatFiles(chat)) ==> LexLess(f, StyleFileName(chat, ts))) ==>
        Refs(chat) == old(Refs(chat)) + [StyleFileName(chat, ts)]
    {
      ghost var before := files;
      files := files + {StyleFileName(chat, ts)};
      SaveEffects(before, files, chat, ts);
      var listing := GetStyleImages(chat);
      count := |listing|;
    }

    /** A photo arrives, with `ts` the current time in milliseconds. It is
        written as `{chat}_{ts}.jpg` when the mode is on or its caption holds a
        keyword, replacing a file saved in the same millisecond; otherwise it is
        the subject of a generation request made of the first ten references by
        name, with a notice when more are stored, and no request at all when
        there are none. */
    method HandleImage(chat: int, photoId: string, caption: Option<string>, ts: nat,
                       generate: seq<PayloadItem> -> GenResponse)
      returns (outcome: PhotoOutcome, truncated: bool, request: Option<seq<PayloadItem>>)
      modifies this
      ensures settingStyle == old(settingStyle)
      ensures Classify(old(ModeOf(chat)), caption).SaveReference? ==>
        && files == old(files) + {StyleFileName(chat, ts)}
        && outcome == Saved(Classify(old(ModeOf(chat)), caption).viaCaption, |ChatFiles(chat)|)
        && |ChatFiles(chat)| == |old(ChatFiles(chat))| + (if StyleFileName(chat, ts) in old(files) then 0 else 1)
        && (forall other :: other != chat ==> ChatFiles(other) == old(ChatFiles(other)))
        && !truncated && request == None
      ensures Classify(old(ModeOf(chat)), caption).TreatAsSubject? ==>
        && files == old(files)
        && (Refs(chat) == [] ==> outcome == NoReferences && !truncated && request == None)
        && (Refs(chat) != [] ==>
              && (truncated <==> |Refs(chat)| > MaxReferences)
              && request == Some(BuildPayload(TelegramFile(photoId),
                   StoredFiles(Refs(chat))[..Min(|Refs(chat)|, MaxReferences)]))
              && outcome == ResponseOutcome(generate(request.value)))
    {
      var decision := Classify(ModeOf(chat), caption);
      truncated := false;
      request := None;
      if decision.SaveReference? {
        var count := StoreReference(chat, ts);
        outcome := Saved(decision.viaCaption, count);
      } else {
        var styleFiles := GetStyleImages(chat);
        if styleFiles == [] {
          outcome := NoReferences;
          return;
        }
        var capped := CapReferences(StoredFiles(styleFiles));
        truncated := capped.1;
        var contents := BuildPayload(TelegramFile(photoId), capped.0);
        var response := generate(contents);
        outcome := InterpretResponse(response);
        request := Some(contents);
      }
    }
  }

  /** Saving adds exactly one listed file for the chat, unless a file was
      already saved under the same name in the same millisecond, in which case
      the count stays; no other chat's files change. */
  lemma SaveCounts(dir: set<string>, chat: int, ts: nat)
    ensures |Owned(dir + {StyleFileName(chat, ts)}, chat)|
         == |Owned(dir, chat)| + (if StyleFileName(chat, ts) in dir then 0 else 1)
    ensures forall other :: other != chat ==>
      Owned(dir + {StyleFileName(chat, ts)}, other) == Owned(dir, other)
  {
    var name := StyleFileName(chat, ts);
    StyleFileNameOwner(chat, ts, chat);
    forall other | other != chat
      ensures Owned(dir + {name}, other) == Owned(dir, other)
    {
      StyleFileNameOwner(chat, ts, other);
    }
    assert Owned(dir + {name}, chat) == Owned(dir, chat) + {name};
    assert name in dir <==> name in Owned(dir, chat);
    if name !in dir {
      assert |Owned(dir, chat) + {name}| == |Owned(dir, chat)| + 1;
    } else {
      assert Owned(dir, chat) + {name} == Owned(dir, chat);
    }
  }

  /** Everything a save does to the listing of each chat. */
  lemma SaveEffects(before: set<string>, after: set<string>, chat: int, ts: nat)
    requires after == before + {StyleFileName(chat, ts)}
    ensures |Owned(after, chat)|
         == |Owned(before, chat)| + (if StyleFileName(chat, ts) in before then 0 else 1)
    ensures forall other :: other != chat ==> Owned(after, other) == Owned(before, other)
    ensures (forall f :: f in Owned(before, chat) ==> LexLess(f, StyleFileName(chat, ts))) ==>
      SortedNames(Owned(after, chat)) == SortedNames(Owned(before, chat)) + [StyleFileName(chat, ts)]
  {
    SaveCounts(before, chat, ts);
    if forall f :: f in Owned(before, chat) ==> LexLess(f, StyleFileName(chat, ts)) {
      SaveAppendsWhenNameSortsLast(before, chat, ts);
    }
  }

  /** When the new name sorts after every reference the chat already has, the
      saved photo becomes the last reference: save order is use order. */
  lemma SaveAppendsWhenNameSortsLast(dir: set<string>, chat: int, ts: nat)
    requires forall f :: f in Owned(dir, chat) ==> LexLess(f, StyleFileName(chat, ts))
    ensures SortedNames(Owned(dir + {StyleFileName(chat, ts)}, chat))
         == SortedNames(Owned(dir, chat)) + [StyleFileName(chat, ts)]
  {
    var name := StyleFileName(chat, ts);
    StyleFileNameOwner(chat, ts, chat);
    assert Owned(dir + {name}, chat) == Owned(dir, chat) + {name};
    SortedNamesAppend(Owned(dir, chat), name);
  }

  /** Of two timestamps written with the same number of digits, the later one
      gives the later name. */
  lemma {:induction false} LaterTimestampSortsLater(a: nat, b: nat)
    requires a < b && |NatToString(a)| == |NatToString(b)|
    ensures LexLess(NatToString(a), NatToString(b))
    decreases b
  {
    if b >= 10 {
      var pa, pb := NatToString(a / 10), NatToString(b / 10);
      assert NatToString(a) == pa + [DigitChar(a % 10)];
      assert NatToString(b) == pb + [DigitChar(b % 10)];
      if a / 10 < b / 10 {
        LaterTimestampSortsLater(a / 10, b / 10);
        LexSameLengthExtend(pa, pb, [DigitChar(a % 10)], [DigitChar(b % 10)]);
      } else {
        LexCommonPrefix(pa, [DigitChar(a % 10)], [DigitChar(b % 10)]);
      }
    }
  }

  lemma LaterSaveSortsLater(chat: int, a: nat, b: nat)
    requires a < b && |NatToString(a)| == |NatToString(b)|
    ensures LexLess(StyleFileName(chat, a), StyleFileName(chat, b))
  {
    var p := ChatPrefix(chat);
    LaterTimestampSortsLater(a, b);
    LexSameLengthExtend(NatToString(a), NatToString(b), ".jpg", ".jpg");
    LexCommonPrefix(p, NatToString(a) + ".jpg", NatToString(b) + ".jpg");
    assert StyleFileName(chat, a) == p + (NatToString(a) + ".jpg");
    assert StyleFileName(chat, b) == p + (NatToString(b) + ".jpg");
  }

  /** Save order is use order: when every reference file of the chat was saved
      by this bot at an earlier millisecond written with as many digits, the
      new photo becomes the chat's last reference. */
  lemma SaveOrderIsUseOrder(dir: set<string>, chat: int, ts: nat)
    requires forall f :: f in Owned(dir, chat) ==>
      exists t: nat :: f == StyleFileName(chat, t) && t < ts && |NatToString(t)| == |NatToString(ts)|
    ensures SortedNames(Owned(dir + {StyleFileName(chat, ts)}, chat))
         == SortedNames(Owned(dir, chat)) + [StyleFileName(chat, ts)]
  {
    forall f | f in Owned(dir, chat) ensures LexLess(f, StyleFileName(chat, ts)) {
      var t: nat :| f == StyleFileName(chat, t) && t < ts && |NatToString(t)| == |NatToString(ts)|;
      LaterSaveSortsLater(chat, t, ts);
    }
    SaveAppendsWhenNameSortsLast(dir, chat, ts);
  }

  /** The precondition above is needed: once the timestamp gains a digit, a
      later save sorts first ("1_1000.jpg" before "1_999.jpg"). */
  lemma WiderTimestampSortsFirst()
    ensures LexLess(StyleFileName(1, 1000), StyleFileName(1, 999))
  {
    assert StyleFileName(1, 1000) == "1_1000.jpg";
    assert StyleFileName(1, 999) == "1_999.jpg";
  }
}

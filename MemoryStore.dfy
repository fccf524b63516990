/** The webhook variant of the bot (api/index.py): style references are
    Telegram file ids kept in a process-wide dictionary per chat, next to the
    per-chat "set style" flag. Both dictionaries are defaultdicts: a chat never
    seen reads as no references and the flag off. */
module MemoryStore {

  import opened Wrappers
  import opened Caption
  import opened Compose

  class Bot {
    /** chat id -> Telegram file ids of the style references, oldest first */
    var styles: map<int, seq<string>>
    /** chat id -> whether the chat is in "set style" mode */
    var settingStyle: map<int, bool>

    /** `chat_styles_file_ids[chat]` */
    function RefsOf(chat: int): seq<string>
      reads this
    {
      if chat in styles then styles[chat] else []
    }

    /** `chat_is_setting_style[chat]` */
    function ModeOf(chat: int): bool
      reads this
    {
      chat in settingStyle && settingStyle[chat]
    }

    /** The state when the module is loaded: every chat has no references and
        the mode off. */
    constructor ()
      ensures forall chat :: RefsOf(chat) == [] && !ModeOf(chat)
    {
      styles := map[];
      settingStyle := map[];
    }

    /** /set_style: turns the mode on for this chat only. */
    method SetStyle(chat: int)
      modifies this
      ensures settingStyle == old(settingStyle)[chat := true]
      ensures styles == old(styles)
      ensures ModeOf(chat)
    {
      settingStyle := settingStyle[chat := true];
    }

    /** /done_style: turns the mode off and reports how many references the
        chat has. */
    method DoneStyle(chat: int) returns (count: nat)
      modifies this
      ensures settingStyle == old(settingStyle)[chat := false]
      ensures styles == old(styles)
      ensures !ModeOf(chat)
      ensures count == |RefsOf(chat)|
    {
      settingStyle := settingStyle[chat := false];
      count := |RefsOf(chat)|;
    }

    /** /clear_style: forgets this chat's references; the mode is kept. */
    method ClearStyle(chat: int)
      modifies this
      ensures styles == old(styles)[chat := []]
      ensures settingStyle == old(settingStyle)
      ensures RefsOf(chat) == []
    {
      styles := styles[chat := []];
    }

    /** /status: the number of references the chat has. */
    method Status(chat: int) returns (count: nat)
      ensures count == |RefsOf(chat)|
    {
      count := |RefsOf(chat)|;
    }

    /** A photo arrives. It is appended to the chat's references when the mode
        is on or its caption holds a keyword; otherwise it is the subject of a
        generation request made of at most ten references, which is not sent
        when there are none. */
    method HandleImage(chat: int, fileId: string, caption: Option<string>,
                       generate: seq<PayloadItem> -> GenResponse)
      returns (outcome: PhotoOutcome, request: Option<seq<PayloadItem>>)
      modifies this
      ensures settingStyle == old(settingStyle)
      ensures Classify(old(ModeOf(chat)), caption).SaveReference? ==>
        && styles == old(styles)[chat := old(RefsOf(chat)) + [fileId]]
        && outcome == Saved(Classify(old(ModeOf(chat)), caption).viaCaption, |old(RefsOf(chat))| + 1)
        && request == None
      ensures Classify(old(ModeOf(chat)), caption).TreatAsSubject? ==>
        && styles == old(styles)
        && (old(RefsOf(chat)) == [] ==> outcome == NoReferences && request == None)
        && (old(RefsOf(chat)) != [] ==>
              && request == Some(BuildPayload(TelegramFile(fileId),
                   TelegramFiles(old(RefsOf(chat)))[..Min(|old(RefsOf(chat))|, MaxReferences)]))
              && outcome == ResponseOutcome(generate(request.value)))
    {
      var decision := Classify(ModeOf(chat), caption);
      if decision.SaveReference? {
        styles := styles[chat := RefsOf(chat) + [fileId]];
        var count := |RefsOf(chat)|;
        outcome := Saved(decision.viaCaption, count);
        request := None;
      } else {
        var refIds := RefsOf(chat);
        if refIds == [] {
          outcome := NoReferences;
          request := None;
          return;
        }
        var loaded := LoadReferences(refIds);
        var contents := BuildPayload(TelegramFile(fileId), loaded);
        var response := generate(contents);
        outcome := InterpretResponse(response);
        request := Some(contents);
      }
    }
  }
}

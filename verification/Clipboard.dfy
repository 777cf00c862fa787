/**
 * Reading a selection through the clipboard (app/selection/clipboard_provider.py), while the user and other programs may
 * write the clipboard whenever the provider sleeps, waits for the keyboard or has sent the copy shortcut. The adapter
 * works, and every write gives the clipboard a new change token.
 */
module ClipboardSelection {
  import opened Wrappers
  import opened Text

  /** Clipboard content: its text, empty if there is none, and its other formats. */
  datatype Content = Content(text: string, formats: nat)

  /** A write by the provider, or by anyone else, perhaps while the provider polls for the result of its copy shortcut. */
  datatype Author = Provider | Other(inCopyWindow: bool)

  datatype Write = Write(author: Author, content: Content)

  datatype Error = ChordBusy | ChordFailed | ChangedDuringUserCopy | ChangedBeforeCopy | CopyFailed | Timeout | EmptySelection

  datatype Result = Selected(text: string) | Failed(error: Error)

  datatype Chord = Safe | Busy | Raises

  /** What happens at each pause, at each wait for the keyboard, at each copy shortcut and at each look at the clock. */
  datatype Script = Script(writes: nat -> seq<Content>, chords: nat -> Chord, copyRaises: nat -> bool, expired: nat -> bool)

  // ---------------------------------------------------------------- the log of writes

  /** The content after the writes. */
  function Current(start: Content, log: seq<Write>): Content {
    if log == [] then start else log[|log| - 1].content
  }

  /** The last write by anyone but the provider. */
  function LastOtherWrite(log: seq<Write>): Option<Write> {
    if log == [] then None
    else if log[|log| - 1].author.Other? then Some(log[|log| - 1])
    else LastOtherWrite(log[..|log| - 1])
  }

  /** The last content that anyone but the provider has written, or what was there at the start. */
  function LastOther(start: Content, log: seq<Write>): Content {
    var w := LastOtherWrite(log);
    if w.Some? then w.value.content else start
  }

  /** What the clipboard held before the provider's first write. */
  function BeforeProvider(start: Content, log: seq<Write>): Content
    decreases |log|
  {
    if log == [] || log[0].author.Provider? then start else BeforeProvider(log[0].content, log[1..])
  }

  predicate AllOther(log: seq<Write>) {
    forall w | w in log :: w.author.Other?
  }

  predicate WrittenByOther(log: seq<Write>, text: string) {
    exists w | w in log :: w.author.Other? && w.content.text == text
  }

  lemma {:induction false} OthersOnly(start: Content, log: seq<Write>)
    requires AllOther(log)
    ensures LastOther(start, log) == Current(start, log) == BeforeProvider(start, log)
    decreases |log|
  {
    if log != [] {
      assert log[|log| - 1] in log && log[0] in log && forall w | w in log[1..] :: w in log;
      OthersOnly(log[0].content, log[1..]);
    }
  }

  lemma {:induction false} BeforeProviderPrefix(start: Content, before: seq<Write>, more: seq<Write>)
    requires AllOther(before) && more != [] && more[0].author.Provider?
    ensures BeforeProvider(start, before + more) == Current(start, before)
    decreases |before|
  {
    if before == [] {
      assert before + more == more;
    } else {
      assert before[0] in before && (before + more)[1..] == before[1..] + more && forall w | w in before[1..] :: w in before;
      BeforeProviderPrefix(before[0].content, before[1..], more);
    }
  }

  /** The writes since `before` are all by others. */
  predicate OthersSince(before: seq<Write>, now: seq<Write>) {
    before <= now && AllOther(now[|before|..])
  }

  /** The writes since `before` are all by others, while the provider polls. */
  predicate CopiedSince(before: seq<Write>, now: seq<Write>) {
    before <= now && forall w | w in now[|before|..] :: w.author == Other(true)
  }

  lemma {:induction false} AfterOthers(start: Content, before: seq<Write>, now: seq<Write>)
    requires OthersSince(before, now)
    ensures if now == before then LastOtherWrite(now) == LastOtherWrite(before)
            else LastOtherWrite(now) == Some(now[|now| - 1]) && LastOther(start, now) == Current(start, now)
  {
    if |now| > |before| {
      assert now[|now| - 1] == now[|before|..][|now| - |before| - 1];
      assert now[|now| - 1] in now[|before|..];
    } else {
      assert now == before;
    }
  }

  /** What the clipboard holds after a write by someone else was written by someone else. */
  lemma {:induction false} OtherWroteIt(start: Content, before: seq<Write>, now: seq<Write>)
    requires OthersSince(before, now) && now != before
    ensures WrittenByOther(now, Current(start, now).text)
  {
    var w := now[|now| - 1];
    assert w == now[|before|..][|now| - |before| - 1] && w in now[|before|..] && w in now;
  }

  /** At most `n` more shortcuts have been sent, all of them when `mark` was the log. */
  predicate SentAt(before: seq<seq<Write>>, now: seq<seq<Write>>, mark: seq<Write>, n: nat) {
    before <= now && |now| <= |before| + n && forall at | at in now[|before|..] :: at == mark
  }

  lemma {:induction false} SentOneMore(before: seq<seq<Write>>, now: seq<seq<Write>>, mark: seq<Write>, n: nat)
    requires SentAt(before, now, mark, n)
    ensures SentAt(before, now, mark, n + 1) && SentAt(before, now + [mark], mark, n + 1)
  {
    assert (now + [mark])[|before|..] == now[|before|..] + [mark];
  }

  lemma {:induction false} SentAfterAll(now: seq<seq<Write>>, mark: seq<Write>, n: nat, all: nat)
    requires SentAt([], now, mark, n) && n <= all
    ensures |now| <= all && forall at | at in now :: at == mark
  {
    assert now[0..] == now;
  }

  // ---------------------------------------------------------------- the desktop

  function Others(contents: seq<Content>, inCopyWindow: bool): seq<Write> {
    seq(|contents|, i requires 0 <= i < |contents| => Write(Other(inCopyWindow), contents[i]))
  }

  class Desktop {
    const script: Script
    var content: Content
    var token: nat
    var pauses: nat
    var waits: nat
    var copies: nat
    var looks: nat
    ghost var start: Content
    ghost var firstToken: nat
    ghost var log: seq<Write>
    /** The log at each copy shortcut that has been sent. */
    ghost var shortcuts: seq<seq<Write>>

    ghost predicate Valid()
      reads this
    {
      content == Current(start, log) && token == firstToken + |log|
    }

    ghost method StartLog()
      modifies this`start, this`firstToken, this`log, this`shortcuts
      ensures Valid() && start == content && log == [] && shortcuts == []
    {
      start, firstToken, log, shortcuts := content, token, [], [];
    }

    method Put(c: Content, author: Author)
      requires Valid()
      modifies this`content, this`token, this`log
      ensures Valid() && log == old(log) + [Write(author, c)]
    {
      content, token := c, token + 1;
      log := log + [Write(author, c)];
    }

    /** A sleep: others write what the script says. */
    method Pause(inCopyWindow: bool)
      requires Valid()
      modifies this`content, this`token, this`log, this`pauses
      ensures Valid() && log == old(log) + Others(script.writes(old(pauses)), inCopyWindow) && pauses == old(pauses) + 1
    {
      var contents := script.writes(pauses);
      pauses := pauses + 1;
      for k := 0 to |contents|
        invariant Valid() && log == old(log) + Others(contents, inCopyWindow)[..k] && pauses == old(pauses) + 1
      {
        Put(contents[k], Other(inCopyWindow));
      }
    }

    /** `wait_until_safe`. */
    method WaitForSafeChord() returns (chord: Chord)
      requires Valid()
      modifies this`content, this`token, this`log, this`pauses, this`waits
      ensures Valid() && log == old(log) + Others(script.writes(old(pauses)), false)
      ensures chord == script.chords(old(waits)) && pauses == old(pauses) + 1 && waits == old(waits) + 1
    {
      Pause(false);
      chord := script.chords(waits);
      waits := waits + 1;
    }

    /** `send_copy`: the program in front may have written by the time it returns. */
    method SendCopy() returns (raises: bool)
      requires Valid()
      modifies this`content, this`token, this`log, this`pauses, this`copies, this`shortcuts
      ensures Valid() && log == old(log) + Others(script.writes(old(pauses)), true)
      ensures shortcuts == old(shortcuts) + [old(log)]
      ensures raises == script.copyRaises(old(copies)) && pauses == old(pauses) + 1
    {
      shortcuts := shortcuts + [log];
      Pause(true);
      raises := script.copyRaises(copies);
      copies := copies + 1;
    }

    method DeadlineReached() returns (b: bool)
      modifies this`looks
      ensures b == script.expired(old(looks)) && looks == old(looks) + 1
    {
      b := script.expired(looks);
      looks := looks + 1;
    }
  }

  // ---------------------------------------------------------------- copies that succeed

  /** The first writes that polling from this pause on sees: it ends at the deadline, or with the last poll. */
  function Polled(script: Script, pause: nat, look: nat, polls: nat): seq<Content>
    decreases polls
  {
    if polls <= 1 || script.expired(look) then []
    else if script.writes(pause) != [] then script.writes(pause)
    else Polled(script, pause + 1, look + 1, polls - 1)
  }

  /** What a shortcut sent at this pause produces: the first writes, at once or while the provider polls. */
  function Product(script: Script, pause: nat, look: nat, polls: nat): seq<Content> {
    if polls == 0 then []
    else if script.writes(pause) != [] then script.writes(pause)
    else Polled(script, pause + 1, look, polls)
  }

  /** What an attempt copies that nobody disturbs: the keyboard is safe and the shortcut works. */
  function Copied(script: Script, pause: nat, wait: nat, copy: nat, look: nat, polls: nat): seq<Content> {
    if script.writes(pause) == [] && script.chords(wait).Safe? && !script.copyRaises(copy)
    then Product(script, pause + 1, look, polls) else []
  }

  /** What a call makes of the last of the contents. */
  function Taken(contents: seq<Content>): Result
    requires contents != []
  {
    var text := contents[|contents| - 1].text;
    if Strip(text) == "" then Failed(EmptySelection) else Selected(text)
  }

  lemma {:induction false} CurrentAfterOthers(start: Content, mark: seq<Write>, contents: seq<Content>)
    requires contents != []
    ensures Current(start, mark + Others(contents, true)) == contents[|contents| - 1]
  {
  }

  // ---------------------------------------------------------------- the provider

  predicate ClipboardChanged(beforeToken: nat, beforeText: string, afterToken: nat, afterText: string) {
    beforeToken != afterToken || beforeText != afterText
  }

  predicate ExternalTextChanged(beforeToken: nat, beforeText: string, afterToken: nat, afterText: string) {
    Strip(afterText) != "" && ClipboardChanged(beforeToken, beforeText, afterToken, afterText)
  }

  /** How a phase ends: with text, with an error, or neither; and whether the clipboard must be left alone. */
  datatype Phase = Phase(result: Option<Result>, preserve: bool)

  class ClipboardSelectionProvider {
    const copyDelay: bool
    const restoreGuard: bool
    const copyAttempts: nat
    const maxPolls: nat
    const sentinel: string
    const desktop: Desktop

    constructor (desktop: Desktop, copyDelay: bool, restoreGuard: bool, copyAttempts: nat, maxPolls: nat, sentinel: string)
      ensures this.desktop == desktop
    {
      this.desktop, this.copyDelay, this.restoreGuard := desktop, copyDelay, restoreGuard;
      this.copyAttempts, this.maxPolls, this.sentinel := copyAttempts, maxPolls, sentinel;
    }

    /** The pauses before the provider's first write. */
    function Delays(): nat {
      if copyDelay then 2 else 1
    }

    /** No one writes before the provider does, and the keyboard is safe. */
    predicate Undisturbed(pause: nat, wait: nat) {
      && desktop.script.chords(wait).Safe? && desktop.script.writes(pause) == []
      && (copyDelay ==> desktop.script.writes(pause + 1) == [])
    }

    /** Up to the first write: text that someone copies meanwhile is the selection. */
    method BeforeCopy() returns (phase: Phase, snapshot: Content)
      requires desktop.Valid() && desktop.log == []
      modifies desktop
      ensures desktop.Valid() && AllOther(desktop.log) && desktop.start == old(desktop.start)
      ensures desktop.shortcuts == old(desktop.shortcuts)
      ensures desktop.copies == old(desktop.copies) && desktop.looks == old(desktop.looks)
      ensures Undisturbed(old(desktop.pauses), old(desktop.waits)) ==>
                && phase.result.None? && desktop.log == [] && desktop.waits == old(desktop.waits) + 1
                && desktop.pauses == old(desktop.pauses) + Delays()
      ensures match phase.result
              case Some(Selected(text)) => phase.preserve && Strip(text) != "" && WrittenByOther(desktop.log, text)
                                           && text == desktop.content.text
              case Some(Failed(_)) => true
              case None => !phase.preserve && desktop.content == snapshot
    {
      var baselineToken, baselineText := desktop.token, desktop.content.text;
      if copyDelay {
        desktop.Pause(false);
      }
      snapshot := desktop.content;
      var token, text := desktop.token, desktop.content.text;
      if ExternalTextChanged(baselineToken, baselineText, token, text) {
        return Phase(Some(Selected(text)), true), snapshot;
      }
      var chord := desktop.WaitForSafeChord();
      if !chord.Safe? {
        return Phase(Some(Failed(if chord.Busy? then ChordBusy else ChordFailed)), false), snapshot;
      }
      var afterToken, afterText := desktop.token, desktop.content.text;
      if ExternalTextChanged(token, text, afterToken, afterText) {
        return Phase(Some(Selected(afterText)), true), snapshot;
      } else if ClipboardChanged(token, text, afterToken, afterText) {
        return Phase(Some(Failed(ChangedDuringUserCopy)), true), snapshot;
      }
      phase := Phase(None, false);
    }

    /** `_wait_for_clipboard_change`. */
    method WaitForClipboardChange(originalToken: nat, originalText: string) returns (changed: bool)
      requires desktop.Valid()
      modifies desktop
      ensures desktop.Valid() && desktop.start == old(desktop.start) && desktop.firstToken == old(desktop.firstToken)
      ensures CopiedSince(old(desktop.log), desktop.log) && desktop.shortcuts == old(desktop.shortcuts)
      ensures changed ==> desktop.token != originalToken || desktop.content.text != originalText
      ensures old(desktop.token) != originalToken && maxPolls > 0 ==> changed && desktop.log == old(desktop.log)
      ensures old(desktop.token) == originalToken && old(desktop.content.text) == originalText ==>
                var seen := Polled(desktop.script, old(desktop.pauses), old(desktop.looks), maxPolls);
                && (changed <==> seen != [])
                && (changed ==> desktop.log == old(desktop.log) + Others(seen, true))
    {
      ghost var untouched := desktop.token == originalToken && desktop.content.text == originalText;
      ghost var seen := Polled(desktop.script, desktop.pauses, desktop.looks, maxPolls);
      for k := 0 to maxPolls
        invariant desktop.Valid() && desktop.start == old(desktop.start) && desktop.firstToken == old(desktop.firstToken)
        invariant CopiedSince(old(desktop.log), desktop.log) && desktop.shortcuts == old(desktop.shortcuts)
        invariant old(desktop.token) != originalToken ==> k == 0 && desktop.log == old(desktop.log)
        invariant untouched && k < maxPolls ==>
                    if desktop.log == old(desktop.log)
                    then seen == Polled(desktop.script, desktop.pauses, desktop.looks, maxPolls - k)
                    else seen != [] && desktop.log == old(desktop.log) + Others(seen, true)
        invariant untouched && k == maxPolls ==> seen == []
      {
        if desktop.token != originalToken || desktop.content.text != originalText {
          return true;
        }
        var expired := desktop.DeadlineReached();
        if expired {
          return false;
        }
        desktop.Pause(true);
      }
      changed := false;
    }

    /** What one attempt, or the whole copy, finds `mark` writes after the start: the provider's own write is the last of them. */
    ghost predicate Copying(mark: seq<Write>)
      reads this, desktop
    {
      && desktop.Valid() && OthersSince(mark, desktop.log)
      && mark != [] && mark[|mark| - 1].content.text == sentinel
    }

    /**
     * One attempt. Without a result in `phase` it has copied, if `copied`, or timed out. The shortcut is sent exactly if
     * the keyboard is safe and no one has written since the sentinel.
     */
    method Attempt(ownToken: nat, ghost mark: seq<Write>) returns (phase: Phase, copied: bool)
      requires Copying(mark) && ownToken == desktop.firstToken + |mark|
      modifies desktop
      ensures Copying(mark) && desktop.start == old(desktop.start) && desktop.firstToken == old(desktop.firstToken)
      ensures match phase.result
              case Some(Selected(text)) => phase.preserve && Strip(text) != "" && WrittenByOther(desktop.log, text)
              case Some(Failed(_)) => !copied
              case None => !phase.preserve
      ensures phase.preserve ==> desktop.log != mark
      ensures phase.result.None? && copied ==> desktop.log != mark && CopiedSince(mark, desktop.log)
      ensures var untouched := old(desktop.log) == mark && desktop.script.writes(old(desktop.pauses)) == [];
              desktop.shortcuts
              == old(desktop.shortcuts) + if untouched && desktop.script.chords(old(desktop.waits)).Safe? then [mark] else []
      ensures var contents := Copied(desktop.script, old(desktop.pauses), old(desktop.waits), old(desktop.copies),
                                     old(desktop.looks), maxPolls);
              old(desktop.log) == mark && contents != [] ==>
                phase.result.None? && copied && desktop.log == mark + Others(contents, true)
    {
      copied := false;
      var beforeToken, beforeText := desktop.token, desktop.content.text;
      var chord := desktop.WaitForSafeChord();
      if !chord.Safe? {
        return Phase(Some(Failed(if chord.Busy? then ChordBusy else ChordFailed)), false), false;
      }
      var afterToken, afterText := desktop.token, desktop.content.text;
      if ExternalTextChanged(beforeToken, beforeText, afterToken, afterText) {
        return Phase(Some(Selected(afterText)), true), true;
      }
      if afterToken != ownToken || afterText != sentinel {
        return Phase(Some(Failed(ChangedBeforeCopy)), true), false;
      }
      assert |desktop.log| == |mark| && desktop.log == mark;
      assert old(desktop.log) == mark && Others(desktop.script.writes(old(desktop.pauses)), false) == [];
      var raises;
      raises, copied := SendAndWait(ownToken, mark);
      phase := Phase(if raises then Some(Failed(CopyFailed)) else None, false);
    }

    /** The copy shortcut over the sentinel, and waiting for what it produces. */
    method SendAndWait(ownToken: nat, ghost mark: seq<Write>) returns (raises: bool, copied: bool)
      requires Copying(mark) && desktop.log == mark && ownToken == desktop.token
      modifies desktop
      ensures Copying(mark) && desktop.start == old(desktop.start) && desktop.firstToken == old(desktop.firstToken)
      ensures desktop.shortcuts == old(desktop.shortcuts) + [mark] && CopiedSince(mark, desktop.log)
      ensures raises == desktop.script.copyRaises(old(desktop.copies)) && (raises ==> !copied)
      ensures copied ==> desktop.log != mark
      ensures var contents := Product(desktop.script, old(desktop.pauses), old(desktop.looks), maxPolls);
              !raises && contents != [] ==> copied && desktop.log == mark + Others(contents, true)
    {
      copied := false;
      raises := desktop.SendCopy();
      if !raises {
        copied := WaitForClipboardChange(ownToken, sentinel);
      }
    }

    /**
     * From the write of the sentinel on. `ownedToken` and `ownedText` are those of the last content the provider knows:
     * its sentinel, or what it takes for the result of its copy shortcut, if `taken`.
     */
    method Copy() returns (phase: Phase, ownedToken: nat, ownedText: string, ghost mark: seq<Write>, ghost taken: bool)
      requires desktop.Valid()
      modifies desktop
      ensures mark == old(desktop.log) + [Write(Provider, Content(sentinel, 0))]
      ensures Copying(mark) && desktop.start == old(desktop.start) && desktop.firstToken == old(desktop.firstToken)
      ensures phase.result.Some? && (phase.preserve ==> desktop.log != mark && !taken)
      ensures phase.result.value.Selected? ==>
                Strip(phase.result.value.text) != "" && WrittenByOther(desktop.log, phase.result.value.text)
      ensures taken ==> ownedToken == desktop.token && ownedText == desktop.content.text
                        && desktop.log != mark && CopiedSince(mark, desktop.log)
      ensures taken ==> phase.result.value == if Strip(ownedText) == "" then Failed(EmptySelection) else Selected(ownedText)
      ensures !taken && !phase.preserve ==>
                phase.result.value.Failed? && ownedToken == desktop.firstToken + |mark| && ownedText == sentinel
      ensures SentAt(old(desktop.shortcuts), desktop.shortcuts, mark, copyAttempts)
      ensures var contents := Copied(desktop.script, old(desktop.pauses), old(desktop.waits), old(desktop.copies),
                                     old(desktop.looks), maxPolls);
              copyAttempts > 0 && contents != [] ==> phase.result == Some(Taken(contents)) && taken
    {
      ghost var contents := Copied(desktop.script, desktop.pauses, desktop.waits, desktop.copies, desktop.looks, maxPolls);
      desktop.Put(Content(sentinel, 0), Provider);
      mark, taken := desktop.log, false;
      ownedToken, ownedText := desktop.token, sentinel;
      var sentinelToken := desktop.token;
      for attempt := 0 to copyAttempts
        invariant Copying(mark) && desktop.start == old(desktop.start) && desktop.firstToken == old(desktop.firstToken)
        invariant SentAt(old(desktop.shortcuts), desktop.shortcuts, mark, attempt)
        invariant attempt == 0 ==> desktop.log == mark && desktop.pauses == old(desktop.pauses)
                                   && desktop.waits == old(desktop.waits) && desktop.copies == old(desktop.copies)
                                   && desktop.looks == old(desktop.looks)
        invariant attempt > 0 ==> contents == []
      {
        var copied;
        SentOneMore(old(desktop.shortcuts), desktop.shortcuts, mark, attempt);
        ghost var sent := desktop.shortcuts;
        phase, copied := Attempt(sentinelToken, mark);
        assert desktop.shortcuts == sent || desktop.shortcuts == sent + [mark];
        if phase.result.Some? {
          return;
        }
        if copied {
          if attempt == 0 && contents != [] {
            CurrentAfterOthers(desktop.start, mark, contents);
          }
          ownedToken, ownedText, taken := desktop.token, desktop.content.text, true;
          var empty := Strip(ownedText) == "";
          if !empty {
            OtherWroteIt(desktop.start, mark, desktop.log);
          }
          return Phase(Some(if empty then Failed(EmptySelection) else Selected(ownedText)), false), ownedToken, ownedText,
                 mark, taken;
        }
        if attempt + 1 < copyAttempts {
          desktop.Pause(false);
        }
      }
      phase := Phase(Some(Failed(Timeout)), false);
    }

    /**
     * Cleanup: the snapshot is restored only if the clipboard is still as the provider knows it. `pause` is the log at
     * the end of the guard interval.
     */
    method RestoreIfOwned(owned: Option<(nat, string)>, snapshot: Content)
      returns (ghost pause: seq<Write>, ghost restored: bool)
      requires desktop.Valid()
      modifies desktop
      ensures desktop.Valid() && desktop.start == old(desktop.start) && desktop.firstToken == old(desktop.firstToken)
      ensures OthersSince(old(desktop.log), pause)
      ensures restored <==> owned.Some? && owned.value.0 == desktop.firstToken + |pause|
                            && owned.value.1 == Current(desktop.start, pause).text
      ensures desktop.log == if restored then pause + [Write(Provider, snapshot)] else pause
      ensures desktop.shortcuts == old(desktop.shortcuts)
    {
      if restoreGuard {
        desktop.Pause(false);
      }
      pause, restored := desktop.log, false;
      if owned.Some? && desktop.token == owned.value.0 && desktop.content.text == owned.value.1 {
        desktop.Put(snapshot, Provider);
        restored := true;
      }
    }

    /** The cleanup after the copy; `took` tells that a write was taken for the result of the copy shortcut. */
    method CleanUp(phase: Phase, ownedToken: nat, ownedText: string, snapshot: Content, ghost before: seq<Write>,
                   ghost mark: seq<Write>, ghost took: bool) returns (ghost taken: bool)
      requires Copying(mark) && mark == before + [Write(Provider, Content(sentinel, 0))]
      requires AllOther(before) && Current(desktop.start, before) == snapshot
      requires phase.result.Some? && (phase.preserve ==> desktop.log != mark && !took)
      requires took ==> ownedToken == desktop.token && ownedText == desktop.content.text
                        && desktop.log != mark && CopiedSince(mark, desktop.log)
                        && phase.result.value == if Strip(ownedText) == "" then Failed(EmptySelection) else Selected(ownedText)
      requires !took && !phase.preserve ==>
                 phase.result.value.Failed? && ownedToken == desktop.firstToken + |mark| && ownedText == sentinel
      modifies desktop
      ensures desktop.Valid() && desktop.start == old(desktop.start) && desktop.shortcuts == old(desktop.shortcuts)
      ensures Outcome(desktop.start, desktop.log, phase.result.value, taken)
      ensures phase.result.value.Selected? && WrittenByOther(old(desktop.log), phase.result.value.text) ==>
                WrittenByOther(desktop.log, phase.result.value.text)
    {
      ghost var copied := desktop.log;
      taken := took;
      if phase.preserve {
        AfterOthers(desktop.start, mark, copied);
        return;
      }
      ghost var pause, restored := RestoreIfOwned(Some((ownedToken, ownedText)), snapshot);
      if restored {
        RestoredOutcome(desktop.start, before, mark, copied, pause, desktop.log, snapshot, phase.result.value, taken);
      } else {
        NotRestored(desktop.start, mark, copied, pause, taken);
        taken := false;
      }
      StillWritten(copied, desktop.log, phase.result.value);
    }

    /**
     * Reads the selection. The clipboard ends up with the last content that anyone else has written, or that was there,
     * except that a write taken for the result of the copy shortcut, if none follows, is replaced by what was there
     * before the shortcut. The text returned was written by someone else during the call. The shortcut is only sent while
     * the sentinel is the last write. If no one writes before the shortcut, the keyboard is safe and the shortcut produces
     * text, while the provider polls, that text is returned.
     */
    method GetSelectedText() returns (r: Result, ghost taken: bool)
      modifies desktop
      ensures desktop.Valid() && desktop.start == old(desktop.content)
      ensures Outcome(desktop.start, desktop.log, r, taken)
      ensures r.Selected? ==> Strip(r.text) != "" && WrittenByOther(desktop.log, r.text)
      ensures |desktop.shortcuts| <= copyAttempts
      ensures forall at | at in desktop.shortcuts :: at != [] && at[|at| - 1] == Write(Provider, Content(sentinel, 0))
      ensures var contents := Copied(desktop.script, old(desktop.pauses) + Delays(), old(desktop.waits) + 1,
                                     old(desktop.copies), old(desktop.looks), maxPolls);
              copyAttempts > 0 && Undisturbed(old(desktop.pauses), old(desktop.waits)) && contents != [] ==>
                r == Taken(contents)
    {
      desktop.StartLog();
      taken := false;
      var phase, snapshot := BeforeCopy();
      OthersOnly(desktop.start, desktop.log);
      if phase.result.Some? {
        if !phase.preserve {
          ghost var pause, restored := RestoreIfOwned(None, snapshot);
          OthersOnly(desktop.start, desktop.log);
        }
        return phase.result.value, false;
      }
      var ownedToken, ownedText;
      ghost var before, mark := desktop.log, [];
      phase, ownedToken, ownedText, mark, taken := Copy();
      SentAfterAll(desktop.shortcuts, mark, copyAttempts, copyAttempts);
      r := phase.result.value;
      taken := CleanUp(phase, ownedToken, ownedText, snapshot, before, mark, taken);
    }
  }

  // ---------------------------------------------------------------- the outcome, by the log

  /** What a call leaves on the clipboard, and returns if it has taken a write for the result of its copy shortcut. */
  predicate Outcome(start: Content, log: seq<Write>, r: Result, taken: bool) {
    if taken then
      && Current(start, log) == BeforeProvider(start, log)
      && LastOtherWrite(log).Some? && LastOtherWrite(log).value.author == Other(true)
      && var text := LastOther(start, log).text;
         r == if Strip(text) == "" then Failed(EmptySelection) else Selected(text)
    else Current(start, log) == LastOther(start, log)
  }

  lemma {:induction false} OthersSinceTwice(a: seq<Write>, b: seq<Write>, c: seq<Write>)
    requires OthersSince(a, b) && OthersSince(b, c)
    ensures OthersSince(a, c)
  {
    assert c[|a|..] == b[|a|..] + c[|b|..];
  }

  lemma {:induction false} NotRestored(start: Content, mark: seq<Write>, copied: seq<Write>, pause: seq<Write>, taken: bool)
    requires OthersSince(mark, copied) && OthersSince(copied, pause) && pause != mark
    requires taken ==> pause != copied
    ensures Current(start, pause) == LastOther(start, pause)
  {
    OthersSinceTwice(mark, copied, pause);
    AfterOthers(start, mark, pause);
  }

  lemma {:induction false} RestoredOutcome(start: Content, before: seq<Write>, mark: seq<Write>, copied: seq<Write>,
                                           pause: seq<Write>, log: seq<Write>, snapshot: Content, r: Result, taken: bool)
    requires AllOther(before) && Current(start, before) == snapshot
    requires |mark| == |before| + 1 && before <= mark && mark[|before|].author.Provider?
    requires OthersSince(mark, copied) && OthersSince(copied, pause) && log == pause + [Write(Provider, snapshot)]
    requires if taken then pause == copied != mark && CopiedSince(mark, copied) else pause == mark
    requires taken ==> var text := Current(start, copied).text;
                       r == if Strip(text) == "" then Failed(EmptySelection) else Selected(text)
    ensures Outcome(start, log, r, taken)
  {
    OthersOnly(start, before);
    assert log[..|pause|] == pause && mark[..|before|] == before;
    if taken {
      assert log == before + log[|before|..];
      BeforeProviderPrefix(start, before, log[|before|..]);
      AfterOthers(start, mark, copied);
      assert copied[|copied| - 1] == copied[|mark|..][|copied| - |mark| - 1];
    } else {
      assert LastOtherWrite(log) == LastOtherWrite(mark) && LastOtherWrite(mark) == LastOtherWrite(before);
    }
  }

  lemma {:induction false} StillWritten(copied: seq<Write>, log: seq<Write>, r: Result)
    requires copied <= log
    ensures r.Selected? && WrittenByOther(copied, r.text) ==> WrittenByOther(log, r.text)
  {
    if r.Selected? && WrittenByOther(copied, r.text) {
      var w :| w in copied && w.author.Other? && w.content.text == r.text;
      assert w in log;
    }
  }

  /** If no one else writes the sentinel, a call never leaves it on the clipboard. */
  lemma {:induction false} SentinelIsGone(start: Content, log: seq<Write>, r: Result, taken: bool, sentinel: string)
    requires Outcome(start, log, r, taken) && start.text != sentinel
    requires forall w | w in log && w.author.Other? :: w.content.text != sentinel
    ensures Current(start, log).text != sentinel
  {
    LastOtherIsOther(log);
    BeforeProviderIsOther(start, log, sentinel);
  }

  lemma {:induction false} LastOtherIsOther(log: seq<Write>)
    ensures LastOtherWrite(log).Some? ==> LastOtherWrite(log).value in log && LastOtherWrite(log).value.author.Other?
  {
    if log != [] {
      LastOtherIsOther(log[..|log| - 1]);
    }
  }

  lemma {:induction false} BeforeProviderIsOther(start: Content, log: seq<Write>, sentinel: string)
    requires start.text != sentinel && forall w | w in log && w.author.Other? :: w.content.text != sentinel
    ensures BeforeProvider(start, log).text != sentinel
    decreases |log|
  {
    if log != [] && log[0].author.Other? {
      assert log[0] in log && forall w | w in log[1..] :: w in log;
      BeforeProviderIsOther(log[0].content, log[1..], sentinel);
    }
  }

  /** Without writes by others, the content stays what it was. */
  lemma {:induction false} AloneNothingChanges(start: Content, log: seq<Write>, r: Result, taken: bool)
    requires Outcome(start, log, r, taken) && forall w | w in log :: w.author.Provider?
    ensures Current(start, log) == start && !taken
  {
    LastOtherIsOther(log);
  }
}

/**
 * The vanilla engine's building interactions: the interaction prompt, the
 * dispatch of an interaction record with its action cooldown, the dialog box
 * and its queue, the content panel, and visit tracking with the welcome
 * message. The DOM is reduced to the state it displays; the site content is
 * reduced to the lengths of its lists and the `gameContent` text table.
 */
module Buildings {
  import opened Wrappers
  import World
  import Text

  /** What `SITE_CONTENT` contributes: list lengths, whether `talks` exists, and `gameContent`. */
  datatype Content = Content(
    publications: nat,
    media: nat,
    research: nat,
    talks: Option<nat>,
    gameContent: map<string, map<string, string>>)

  /**
   * The dialog text: plain text, or the HTML rendering of one content item
   * (`fromMedia` when the theatre's talk list fell back to `media`).
   */
  datatype Body =
    | Plain(text: string)
    | PublicationHtml(index: nat)
    | MediaHtml(index: nat)
    | ResearchHtml(index: nat)
    | TalkHtml(index: nat)
    | TalksHtml(index: nat, fromMedia: bool)

  datatype Dialog = Dialog(title: string, body: Body)

  /** The two lines of the interaction prompt. */
  datatype Prompt = Prompt(objectName: string, actionText: string)

  /** What `handleInteraction` hands back to the engine. */
  datatype ActionResult = Enter(building: string) | ExitAction | DialogAction

  /**
   * The `Buildings` object: the dialog box (shown or hidden, with its last
   * title and text), the queue, the content panel, the prompt, the action
   * cooldown and the visited building keys. `hasPanel` records whether the
   * page has a content-panel element.
   */
  datatype Ui = Ui(
    dialogOpen: bool,
    dialog: Dialog,
    dialogQueue: seq<Dialog>,
    hasPanel: bool,
    panelOpen: bool,
    panelTitle: string,
    panelBody: string,
    promptVisible: bool,
    prompt: Prompt,
    currentInteraction: Option<World.Interaction>,
    actionCooldown: bool,
    visited: set<string>)

  /** The state after `init`: nothing shown, nothing queued, nothing visited. */
  function Initial(hasPanel: bool): (u: Ui)
    ensures !IsDialogOpen(u) && !u.promptVisible && u.currentInteraction == None
    ensures !u.actionCooldown && u.dialogQueue == [] && u.visited == {}
  {
    Ui(false, Dialog("", Plain("")), [], hasPanel, false, "", "", false, Prompt("", ""), None, false, {})
  }

  // ---------------------------------------------------------------------
  // The interaction prompt
  // ---------------------------------------------------------------------

  /** `getInteractionName`: the type's display name, preferring the record's own id or name. */
  function InteractionName(i: World.Interaction): (n: string)
    ensures n != ""
  {
    match i
    case Publication(_) => "Bookshelf"
    case Media(_) => "Media Equipment"
    case Research(_) => "Research Station"
    case Talk(_) => "Lecture Notes"
    case Talks(_) => "Lecture Notes"
    case Object(id, _) => if id != "" then id else "Object"
    case Entrance(_, name) => if name != "" then name else "Entrance"
    case Door(_, name) => if name != "" then name else "Door"
    case Sign(_, _) => "Sign"
    case _ => "Interact"
  }

  /** The prompt lines for a record: `interaction.name` wins, and an exit always reads "Exit". */
  function PromptFor(i: World.Interaction, isMobile: bool): (p: Prompt)
    ensures i.Exit? ==> p.objectName == "Exit"
    ensures (i.Door? || i.Entrance?) && i.name != "" ==> p.objectName == i.name
    ensures p.objectName != ""
    ensures (i.Door? || i.Entrance?) ==> p.actionText == (if isMobile then "Tap to enter" else "Press ENTER to enter")
    ensures i.Sign? ==> p.actionText == (if isMobile then "Tap to read" else "Press ENTER to read")
    ensures i.Exit? ==> p.actionText == (if isMobile then "Tap to exit" else "Press ENTER to exit")
    ensures !(i.Door? || i.Entrance? || i.Sign? || i.Exit?) ==>
              p.actionText == (if isMobile then "Tap to interact" else "Press ENTER to interact")
  {
    var named := if (i.Door? || i.Entrance?) && i.name != "" then i.name else InteractionName(i);
    match i
    case Door(_, _) => Prompt(named, if isMobile then "Tap to enter" else "Press ENTER to enter")
    case Entrance(_, _) => Prompt(named, if isMobile then "Tap to enter" else "Press ENTER to enter")
    case Sign(_, _) => Prompt(named, if isMobile then "Tap to read" else "Press ENTER to read")
    case Exit => Prompt("Exit", if isMobile then "Tap to exit" else "Press ENTER to exit")
    case _ => Prompt(named, if isMobile then "Tap to interact" else "Press ENTER to interact")
  }

  /** `hidePrompt`: hides the prompt and forgets the current interaction. */
  function HidePrompt(u: Ui): (r: Ui)
    ensures !r.promptVisible && r.currentInteraction == None
    ensures r == u.(promptVisible := false, currentInteraction := None)
  {
    u.(promptVisible := false, currentInteraction := None)
  }

  /** `updatePrompt`: shows the record's prompt unless a dialog or the panel is open. */
  function UpdatePrompt(u: Ui, interaction: Option<World.Interaction>, isMobile: bool): (r: Ui)
    ensures r.promptVisible <==> interaction.Some? && !u.dialogOpen && !u.panelOpen
    ensures r.promptVisible ==> r == u.(currentInteraction := interaction, promptVisible := true,
                                        prompt := PromptFor(interaction.value, isMobile))
    ensures !r.promptVisible ==> r == HidePrompt(u)
  {
    if interaction.Some? && !u.dialogOpen && !u.panelOpen then
      u.(currentInteraction := interaction, prompt := PromptFor(interaction.value, isMobile), promptVisible := true)
    else HidePrompt(u)
  }

  // ---------------------------------------------------------------------
  // The dialog box
  // ---------------------------------------------------------------------

  /** `showDialog`: replaces the box's title and text, opens it and hides the prompt. */
  function ShowDialog(u: Ui, title: string, body: Body): (r: Ui)
    ensures r.dialogOpen && r.dialog == Dialog(title, body)
    ensures !r.promptVisible && r.currentInteraction == None
    ensures r.dialogQueue == u.dialogQueue && r.panelOpen == u.panelOpen && r.visited == u.visited
    ensures r.actionCooldown == u.actionCooldown
  {
    HidePrompt(u).(dialog := Dialog(title, body), dialogOpen := true)
  }

  /** `closeDialog`: hides the box. */
  function CloseDialog(u: Ui): (r: Ui)
    ensures !r.dialogOpen && r == u.(dialogOpen := false)
  {
    u.(dialogOpen := false)
  }

  /** `advanceDialog`: shows the head of the queue, or closes the box once the queue is empty. */
  function AdvanceDialog(u: Ui): (r: Ui)
    ensures |u.dialogQueue| > 0 ==>
              r.dialogOpen && r.dialog == u.dialogQueue[0] && r.dialogQueue == u.dialogQueue[1..]
    ensures |u.dialogQueue| == 0 ==> r == CloseDialog(u)
  {
    if |u.dialogQueue| > 0 then
      var next := u.dialogQueue[0];
      ShowDialog(u.(dialogQueue := u.dialogQueue[1..]), next.title, next.body)
    else CloseDialog(u)
  }

  /** `isDialogOpen`: a dialog or the content panel is open. */
  function IsDialogOpen(u: Ui): bool
  {
    u.dialogOpen || u.panelOpen
  }

  /**
   * `isDialogOpen` covers both boxes: showing a dialog opens it, and closing
   * one box leaves it open exactly when the other box is.
   */
  lemma IsDialogOpenCases(u: Ui, title: string, body: Body, html: string)
    ensures IsDialogOpen(ShowDialog(u, title, body))
    ensures IsDialogOpen(CloseDialog(u)) <==> u.panelOpen
    ensures u.hasPanel ==> IsDialogOpen(ShowContentPanel(u, title, html))
    ensures u.hasPanel ==> (IsDialogOpen(ClosePanel(u)) <==> u.dialogOpen)
    ensures !IsDialogOpen(Initial(u.hasPanel))
  {
  }

  /** `handleDialogAction`: advances and reports true iff the dialog box is open. */
  function HandleDialogAction(u: Ui): (res: (Ui, bool))
    ensures res.1 <==> u.dialogOpen
    ensures res.1 ==> res.0 == AdvanceDialog(u)
    ensures !res.1 ==> res.0 == u
  {
    if u.dialogOpen then (AdvanceDialog(u), true) else (u, false)
  }

  /** `n` calls of `advanceDialog` in a row. */
  function Advances(u: Ui, n: nat): Ui
    decreases n
  {
    if n == 0 then u else Advances(AdvanceDialog(u), n - 1)
  }

  /**
   * With N dialogs queued behind an open box, the first N advances show the
   * queued dialogs in order, keeping the box open, and advance N + 1 closes it.
   */
  lemma {:induction false} QueueDrains(u: Ui, k: nat)
    requires u.dialogOpen && k <= |u.dialogQueue|
    ensures var r := Advances(u, k);
            r.dialogQueue == u.dialogQueue[k..] &&
            r.dialogOpen &&
            (k > 0 ==> r.dialog == u.dialogQueue[k - 1])
    decreases k
  {
    if k > 0 {
      var next := AdvanceDialog(u);
      QueueDrains(next, k - 1);
      assert next.dialogQueue[k - 1..] == u.dialogQueue[k..];
      if k > 1 {
        assert next.dialogQueue[k - 2] == u.dialogQueue[k - 1];
      } else {
        assert Advances(next, 0) == next;
      }
    }
  }

  lemma QueueClosesAfterAll(u: Ui)
    requires u.dialogOpen
    ensures var n := |u.dialogQueue|;
            (forall k :: 0 <= k <= n ==> Advances(u, k).dialogOpen) &&
            !Advances(u, n + 1).dialogOpen
  {
    var n := |u.dialogQueue|;
    forall k | 0 <= k <= n
      ensures Advances(u, k).dialogOpen
    {
      QueueDrains(u, k);
    }
    AdvancesSplit(u, n);
    QueueDrains(u, n);
  }

  /** One more advance after `n` of them is advance `n + 1`. */
  lemma {:induction false} AdvancesSplit(u: Ui, n: nat)
    ensures Advances(u, n + 1) == AdvanceDialog(Advances(u, n))
    decreases n
  {
    if n > 0 {
      AdvancesSplit(AdvanceDialog(u), n - 1);
    }
  }

  // ---------------------------------------------------------------------
  // The content panel
  // ---------------------------------------------------------------------

  /** `showContentPanel`: without a panel element nothing happens; otherwise opens it and hides the prompt. */
  function ShowContentPanel(u: Ui, title: string, html: string): (r: Ui)
    ensures !u.hasPanel ==> r == u
    ensures u.hasPanel ==> r.panelOpen && r.panelTitle == title && r.panelBody == html &&
                           !r.promptVisible && IsDialogOpen(r) && r.dialogOpen == u.dialogOpen
  {
    if !u.hasPanel then u
    else HidePrompt(u).(panelTitle := title, panelBody := html, panelOpen := true)
  }

  /** `closePanel`: without a panel element nothing happens; otherwise closes it. */
  function ClosePanel(u: Ui): (r: Ui)
    ensures !u.hasPanel ==> r == u
    ensures u.hasPanel ==> r == u.(panelOpen := false)
  {
    if !u.hasPanel then u else u.(panelOpen := false)
  }

  /** The keydown listener: Escape closes an open panel, every other key is ignored. */
  function KeyPressed(u: Ui, key: string): (r: Ui)
    ensures key == "Escape" && u.panelOpen ==> r == ClosePanel(u)
    ensures key != "Escape" || !u.panelOpen ==> r == u
  {
    if key == "Escape" && u.panelOpen then ClosePanel(u) else u
  }

  /** Opening the panel and closing it again leaves it closed and the dialog box as it was. */
  lemma PanelOpenThenClose(u: Ui, title: string, html: string)
    requires u.hasPanel
    ensures var r := KeyPressed(ShowContentPanel(u, title, html), "Escape");
            !r.panelOpen && r.dialogOpen == u.dialogOpen && IsDialogOpen(r) == u.dialogOpen
  {
  }

  // ---------------------------------------------------------------------
  // Content shown by interactions
  // ---------------------------------------------------------------------

  /** The room and item named by an object's `content` key (`room.item`; a missing item reads "undefined"). */
  function ContentKey(content: string): (key: (string, string))
    ensures var parts := Text.Split(content, '.');
            key.0 == parts[0] && key.1 == (if |parts| > 1 then parts[1] else "undefined")
  {
    var parts := Text.Split(content, '.');
    (parts[0], if |parts| > 1 then parts[1] else "undefined")
  }

  /** Whether `gameContent` holds a non-empty text for the room and item. */
  predicate HasEntry(c: Content, room: string, item: string)
  {
    room in c.gameContent && item in c.gameContent[room] && c.gameContent[room][item] != ""
  }

  /** `showObjectContent`: the `gameContent` entry under the title of its item, when present and non-empty. */
  function ShowObjectContent(u: Ui, content: string, c: Content): (r: Ui)
    ensures var key := ContentKey(content);
            HasEntry(c, key.0, key.1) ==>
              r == ShowDialog(u, Text.FormatTitle(key.1), Plain(c.gameContent[key.0][key.1]))
    ensures var key := ContentKey(content);
            !HasEntry(c, key.0, key.1) ==> r == u
  {
    var (room, item) := ContentKey(content);
    if HasEntry(c, room, item) then ShowDialog(u, Text.FormatTitle(item), Plain(c.gameContent[room][item]))
    else u
  }

  /**
   * A key `room.item`, neither part containing a dot, names exactly that
   * room and item; a key without a dot names the item "undefined".
   */
  lemma ContentKeyOfDotted(room: string, item: string)
    requires forall i :: 0 <= i < |room| ==> room[i] != '.'
    requires forall i :: 0 <= i < |item| ==> item[i] != '.'
    ensures ContentKey(room + "." + item) == (room, item)
  {
    assert room + "." + item == room + ['.'] + item;
    Text.SplitTwo(room, item, '.');
  }

  lemma ContentKeyWithoutDot(room: string)
    requires forall i :: 0 <= i < |room| ==> room[i] != '.'
    ensures ContentKey(room) == (room, "undefined")
  {
    Text.SplitNoSeparator(room, '.');
  }

  /** The indexed lists an interaction can show an item of. */
  datatype Shelf = Publications | MediaList | ResearchList | TalkList | TalksList

  /** The list a shelf indexes: `talks || media` for the theatre, `talks` (possibly absent) for a single talk. */
  function ShelfLength(s: Shelf, c: Content): (n: nat)
  {
    match s
    case Publications => c.publications
    case MediaList => c.media
    case ResearchList => c.research
    case TalkList => if c.talks.Some? then c.talks.value else 0
    case TalksList => if c.talks.Some? then c.talks.value else c.media
  }

  /** The dialog a shelf shows for an index in range. */
  function ItemDialog(s: Shelf, index: nat, c: Content): Dialog
  {
    match s
    case Publications => Dialog("Publication", PublicationHtml(index))
    case MediaList => Dialog("Media & Talks", MediaHtml(index))
    case ResearchList => Dialog("Research Project", ResearchHtml(index))
    case TalkList => Dialog("Talk", TalkHtml(index))
    case TalksList => Dialog("Talk", TalksHtml(index, c.talks.None?))
  }

  /** The fixed dialog a shelf shows for an index out of range. */
  function FallbackDialog(s: Shelf): Dialog
  {
    match s
    case Publications => Dialog("Bookshelf", Plain("Rows of academic journals and conference proceedings line the shelves."))
    case MediaList => Dialog("Lecture Hall", Plain("The lecture hall is set up for presentations on AI and conservation."))
    case ResearchList => Dialog("Research Lab", Plain("Equipment and computers fill the lab, all dedicated to conservation AI research."))
    case TalkList => Dialog("Lecture Theatre", Plain("The stage is set for academic presentations and guest lectures."))
    case TalksList => Dialog("Lecture Theatre", Plain("The theatre hosts talks on AI, conservation, and technology."))
  }

  /** The dialog a `show*Content` function picks: the item at `index` when it is in range, else the fallback. */
  function IndexedDialog(s: Shelf, index: int, c: Content): Dialog
  {
    if 0 <= index < ShelfLength(s, c) then ItemDialog(s, index, c) else FallbackDialog(s)
  }

  /** The `show*Content` functions. */
  function ShowIndexed(u: Ui, s: Shelf, index: int, c: Content): (r: Ui)
    ensures r == ShowDialog(u, IndexedDialog(s, index, c).title, IndexedDialog(s, index, c).body)
  {
    var d := IndexedDialog(s, index, c);
    ShowDialog(u, d.title, d.body)
  }

  /** Which item a dialog body renders, if any. */
  function ShownItem(b: Body): Option<nat>
  {
    match b
    case Plain(_) => None
    case PublicationHtml(i) => Some(i)
    case MediaHtml(i) => Some(i)
    case ResearchHtml(i) => Some(i)
    case TalkHtml(i) => Some(i)
    case TalksHtml(i, _) => Some(i)
  }

  /**
   * An indexed interaction renders an item exactly when its index is in
   * range, and then it is the item at that index; otherwise the shelf's
   * plain fallback text is shown.
   */
  lemma IndexedShowsItemIffInRange(s: Shelf, index: int, c: Content)
    ensures var d := IndexedDialog(s, index, c);
            (ShownItem(d.body).Some? <==> 0 <= index < ShelfLength(s, c)) &&
            (ShownItem(d.body).Some? ==> ShownItem(d.body).value == index) &&
            (!(0 <= index < ShelfLength(s, c)) ==> d == FallbackDialog(s))
  {
    if 0 <= index < ShelfLength(s, c) {
      assert IndexedDialog(s, index, c) == ItemDialog(s, index, c);
    } else {
      FallbackIsPlain(s);
    }
  }

  lemma FallbackIsPlain(s: Shelf)
    ensures FallbackDialog(s).body.Plain?
  {
    match s
    case Publications =>
    case MediaList =>
    case ResearchList =>
    case TalkList =>
    case TalksList =>
  }

  /** The theatre's talk list falls back to `media` only when there is no `talks` list at all. */
  lemma TalksFallBackToMedia(c: Content)
    ensures c.talks.Some? ==> ShelfLength(TalksList, c) == c.talks.value
    ensures c.talks.None? ==> ShelfLength(TalksList, c) == c.media && ShelfLength(TalkList, c) == 0
  {
  }

  // ---------------------------------------------------------------------
  // Dispatch
  // ---------------------------------------------------------------------

  /**
   * `handleInteraction`: while the cooldown is on, nothing at all happens;
   * otherwise the cooldown starts (even for no record), doors and entrances
   * ask to enter their building, an exit asks to leave, and every content
   * record opens its dialog. An unknown type gives nothing.
   */
  function HandleInteraction(u: Ui, interaction: Option<World.Interaction>, c: Content): (res: (Ui, Option<ActionResult>))
    ensures u.actionCooldown ==> res == (u, None)
    ensures !u.actionCooldown ==> res.0.actionCooldown
    ensures !u.actionCooldown && interaction.None? ==> res == (u.(actionCooldown := true), None)
    ensures !u.actionCooldown && interaction.Some? ==> res.1 == Dispatch(interaction.value)
    ensures !u.actionCooldown && interaction.Some? && res.1 != Some(DialogAction) ==>
              res.0 == u.(actionCooldown := true)
  {
    if u.actionCooldown then (u, None)
    else
      var u1 := u.(actionCooldown := true);
      match interaction
      case None => (u1, None)
      case Some(i) =>
        match i
        case Door(b, _) => (u1, Some(Enter(b)))
        case Entrance(b, _) => (u1, Some(Enter(b)))
        case Exit => (u1, Some(ExitAction))
        case Sign(text, _) => (ShowDialog(u1, "Sign", Plain(text)), Some(DialogAction))
        case Object(_, content) => (ShowObjectContent(u1, content, c), Some(DialogAction))
        case Publication(index) => (ShowIndexed(u1, Publications, index, c), Some(DialogAction))
        case Media(index) => (ShowIndexed(u1, MediaList, index, c), Some(DialogAction))
        case Research(index) => (ShowIndexed(u1, ResearchList, index, c), Some(DialogAction))
        case Talk(index) => (ShowIndexed(u1, TalkList, index, c), Some(DialogAction))
        case Talks(index) => (ShowIndexed(u1, TalksList, index, c), Some(DialogAction))
        case Other(_) => (u1, None)
  }

  /** The timer set by `handleInteraction` firing, 200 ms later. */
  function CooldownExpired(u: Ui): (r: Ui)
    ensures !r.actionCooldown && r == u.(actionCooldown := false)
  {
    u.(actionCooldown := false)
  }

  /** The result `handleInteraction` gives a record outside the cooldown. */
  function Dispatch(i: World.Interaction): (r: Option<ActionResult>)
    ensures (i.Door? || i.Entrance?) ==> r == Some(Enter(i.building))
    ensures r.Some? && r.value.Enter? <==> i.Door? || i.Entrance?
    ensures r == Some(ExitAction) <==> i.Exit?
    ensures r.None? <==> i.Other?
    ensures r == Some(DialogAction) <==>
              i.Sign? || i.Object? || i.Publication? || i.Media? || i.Research? || i.Talk? || i.Talks?
  {
    match i
    case Door(b, _) => Some(Enter(b))
    case Entrance(b, _) => Some(Enter(b))
    case Exit => Some(ExitAction)
    case Other(_) => None
    case _ => Some(DialogAction)
  }

  /**
   * Outside the cooldown, the result depends on the record's type alone, as
   * `Dispatch` lists it; only the content records touch the dialog box, and
   * every one except an object opens it.
   */
  lemma DispatchByType(u: Ui, i: World.Interaction, c: Content)
    requires !u.actionCooldown
    ensures var res := HandleInteraction(u, Some(i), c);
            res.1 == Dispatch(i) &&
            (res.1 != Some(DialogAction) ==> res.0 == u.(actionCooldown := true)) &&
            (res.1 == Some(DialogAction) && !i.Object? ==> res.0.dialogOpen)
  {
  }

  /** A second action before the cooldown timer fires is ignored entirely. */
  lemma SecondActionIgnored(u: Ui, a: Option<World.Interaction>, b: Option<World.Interaction>, c: Content)
    requires !u.actionCooldown
    ensures var first := HandleInteraction(u, a, c).0;
            HandleInteraction(first, b, c) == (first, None)
  {
  }

  // ---------------------------------------------------------------------
  // Visits and welcome messages
  // ---------------------------------------------------------------------

  /** `recordVisit`: marks the key visited and reports whether this was the first visit. */
  function RecordVisit(u: Ui, b: string): (res: (Ui, bool))
    ensures res.1 <==> b !in u.visited
    ensures res.0 == u.(visited := u.visited + {b})
  {
    (u.(visited := u.visited + {b}), b !in u.visited)
  }

  function HasVisited(u: Ui, b: string): (v: bool)
    ensures v <==> !RecordVisit(u, b).1
  {
    b in u.visited
  }

  /**
   * Only the first visit to a key counts as first; afterwards the key is
   * visited, and other keys are unaffected.
   */
  lemma VisitsAreRemembered(u: Ui, b: string, other: string)
    requires other != b
    ensures var (once, first) := RecordVisit(u, b);
            first == !HasVisited(u, b) && HasVisited(once, b) && !RecordVisit(once, b).1 &&
            HasVisited(once, other) == HasVisited(u, other)
  {
  }

  /** The first-visit table of `getWelcomeMessage`, keyed by building id. */
  function FirstVisitMessage(b: string): Option<string>
  {
    if b == "playerHouse" then Some("Welcome home! This is your house. Look around to learn about Sam's background, education, and interests.")
    else if b == "playerHouse2F" then Some("Your bedroom and study area. Check the desk and bookshelves for more about Sam's academic journey.")
    else if b == "rivalHouse" then Some("Welcome to your rival's house! They've got quite the media setup. Browse around to find talks and media appearances.")
    else if b == "oakLab" then Some("Welcome to Professor Oak's Laboratory! This is where the research happens. Explore to discover publications and ongoing projects.")
    else None
  }

  /** The return-visit table of `getWelcomeMessage`. */
  function ReturnVisitMessage(b: string): Option<string>
  {
    if b == "playerHouse" then Some("Welcome back home! Feel free to look around.")
    else if b == "playerHouse2F" then Some("Back in your room. Your research notes are on the desk.")
    else if b == "rivalHouse" then Some("Back at your rival's place. Any new episodes on TV?")
    else if b == "oakLab" then Some("Welcome back to the lab! The research never stops.")
    else None
  }

  /** The name `getWelcomeMessage` uses: the building's, or "this building" for an unknown key. */
  function WelcomeName(b: string): (n: string)
    ensures World.ParseBuilding(b).None? ==> n == "this building"
    ensures World.ParseBuilding(b).Some? ==> n == World.BuildingInfo(World.ParseBuilding(b).value).name
  {
    match World.ParseBuilding(b)
    case Some(id) => if World.BuildingInfo(id).name != "" then World.BuildingInfo(id).name else "this building"
    case None => "this building"
  }

  /** `getWelcomeMessage`: the table entry for the key, else the generic greeting with the name. */
  function GetWelcomeMessage(b: string, isFirstVisit: bool): (m: string)
    ensures var table := if isFirstVisit then FirstVisitMessage(b) else ReturnVisitMessage(b);
            table.Some? ==> m == table.value
    ensures var table := if isFirstVisit then FirstVisitMessage(b) else ReturnVisitMessage(b);
            table.None? ==>
              m == (if isFirstVisit then "Welcome to " else "Welcome back to ") + WelcomeName(b) + "!"
    ensures var table := if isFirstVisit then FirstVisitMessage(b) else ReturnVisitMessage(b);
            table.None? ==>
              var tail := WelcomeName(b) + "!";
              |m| > |tail| && m[..7] == "Welcome" && m[|m| - |tail|..] == tail
  {
    var table := if isFirstVisit then FirstVisitMessage(b) else ReturnVisitMessage(b);
    if table.Some? then table.value
    else if isFirstVisit then Greeting("Welcome to ", WelcomeName(b))
    else Greeting("Welcome back to ", WelcomeName(b))
  }

  /** The generic greeting: an opening that starts with "Welcome", the name, and "!". */
  function Greeting(opening: string, name: string): (m: string)
    requires |opening| >= 7 && opening[..7] == "Welcome"
    ensures |m| >= 7 && |m| > |name| + 1 && m[..7] == "Welcome" && m[|m| - |name| - 1..] == name + "!"
  {
    assert (opening + name + "!")[..7] == opening[..7];
    opening + name + "!"
  }

  /**
   * None of the campus buildings has a table entry, so each gets the generic
   * greeting with its `buildings` name.
   */
  lemma CampusWelcome(b: World.BuildingId, isFirstVisit: bool)
    ensures var name := World.BuildingInfo(b).name;
            GetWelcomeMessage(World.IdName(b), isFirstVisit) ==
              (if isFirstVisit then "Welcome to " + name + "!" else "Welcome back to " + name + "!")
  {
    assert World.ParseBuilding(World.IdName(b)) == Some(b);
    var k := World.IdName(b);
    assert k != "playerHouse" && k != "playerHouse2F" && k != "rivalHouse" && k != "oakLab";
  }
}

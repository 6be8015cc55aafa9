/**
 * The mail window: the mailbox (newest first), the folder or starred view,
 * the search over subject, sender and body, the folder badges, and the
 * compose form with send, save-draft, reply and forward. Dates are
 * timestamps; their locale rendering in a reply or forward is passed in.
 */
module Email {
  import opened Options
  import opened Strings
  import opened Lists

  datatype Folder = Inbox | Sent | Drafts | Trash | Archive

  /** The sidebar entry chosen: one folder, or every starred email. */
  datatype View = FolderView(folder: Folder) | StarredView

  datatype Email = Email(
    id: string,
    from: string,
    to: string,
    subject: string,
    body: string,
    date: nat,
    read: bool,
    starred: bool,
    folder: Folder)

  datatype Compose = Compose(to: string, subject: string, body: string)

  const EmptyCompose: Compose := Compose("", "", "")
  const OwnAddress: string := "user@workflow-os.com"
  const NoSubject: string := "(No subject)"

  /** The search lets an email through when the query is empty or its subject, sender or body contains it, ignoring case. */
  predicate MatchesSearch(e: Email, query: string) {
    query == "" || ContainsIgnoringCase(e.subject, query) || ContainsIgnoringCase(e.from, query)
      || ContainsIgnoringCase(e.body, query)
  }

  /** The view holds the starred emails, or the emails of its folder. */
  predicate InView(e: Email, view: View) {
    match view
    case StarredView => e.starred
    case FolderView(f) => e.folder == f
  }

  /** The list the window shows, in mailbox order. */
  function Listed(emails: seq<Email>, query: string, view: View): (r: seq<Email>)
    ensures forall e :: e in r <==> e in emails && MatchesSearch(e, query) && InView(e, view)
  {
    Filter(emails, (e: Email) => MatchesSearch(e, query) && InView(e, view))
  }

  /** What a sidebar badge counts: unread inbox mail, starred mail, drafts, trash (Sent and Archive always show 0). */
  predicate Counted(e: Email, view: View) {
    match view
    case FolderView(Inbox) => e.folder == Inbox && !e.read
    case StarredView => e.starred
    case FolderView(Drafts) => e.folder == Drafts
    case FolderView(Trash) => e.folder == Trash
    case FolderView(Sent) => false
    case FolderView(Archive) => false
  }

  function Badge(emails: seq<Email>, view: View): (n: nat)
    ensures view == FolderView(Sent) || view == FolderView(Archive) ==> n == 0
  {
    if view == FolderView(Sent) || view == FolderView(Archive) then 0
    else CountWhere(emails, (e: Email) => Counted(e, view))
  }

  /**
   * The Starred, Drafts and Trash badges count exactly what their unsearched
   * view lists; the Inbox badge counts at most that (only the unread ones).
   */
  lemma BadgeAgainstView(emails: seq<Email>, view: View)
    ensures view in {StarredView, FolderView(Drafts), FolderView(Trash)} ==> Badge(emails, view) == |Listed(emails, "", view)|
    ensures view == FolderView(Inbox) ==> Badge(emails, view) <= |Listed(emails, "", view)|
  {
    var counted := (e: Email) => Counted(e, view);
    var listed := (e: Email) => MatchesSearch(e, "") && InView(e, view);
    assert CountWhere(emails, listed) == |Listed(emails, "", view)|;
    if view in {StarredView, FolderView(Drafts), FolderView(Trash)} {
      CountWhereSame(emails, counted, listed);
    } else if view == FolderView(Inbox) {
      CountWhereMonotone(emails, counted, listed);
    }
  }

  /** The mailbox with the matching emails rewritten by `f`. */
  function Updated(emails: seq<Email>, id: string, f: Email -> Email): (r: seq<Email>)
    ensures |r| == |emails|
    ensures forall k :: 0 <= k < |r| ==> r[k] == if emails[k].id == id then f(emails[k]) else emails[k]
  {
    MapWhere(emails, (e: Email) => e.id == id, f)
  }

  /** Starring twice restores the mailbox. */
  lemma StarTwiceRestores(emails: seq<Email>, id: string)
    ensures var flip := (e: Email) => e.(starred := !e.starred);
      Updated(Updated(emails, id, flip), id, flip) == emails
  {
    MapWhereTwice(emails, (e: Email) => e.id == id, (e: Email) => e.(starred := !e.starred));
  }

  /** The email a reply starts from: back to the sender, 'Re: ' before the subject, the original quoted below. */
  function ReplyTo(e: Email, dateText: string): (c: Compose)
    ensures c.to == e.from && c.subject == "Re: " + e.subject
    ensures EndsWith(c.body, e.body)
  {
    var body := "\n\n---\nOn " + dateText + ", " + e.from + " wrote:\n" + e.body;
    assert body == ("\n\n---\nOn " + dateText + ", " + e.from + " wrote:\n") + e.body;
    Compose(e.from, "Re: " + e.subject, body)
  }

  /** The email a forward starts from: no recipient, 'Fwd: ' before the subject, the original below its headers. */
  function ForwardOf(e: Email, dateText: string): (c: Compose)
    ensures c.to == "" && c.subject == "Fwd: " + e.subject
    ensures EndsWith(c.body, e.body)
  {
    var head := "\n\n---\nForwarded message:\nFrom: " + e.from + "\nDate: " + dateText + "\nSubject: " + e.subject + "\n\n";
    Compose("", "Fwd: " + e.subject, head + e.body)
  }

  class Mailbox {
    var emails: seq<Email>
    var selectedFolder: View
    var selectedEmail: Option<Email>
    var isComposing: bool
    var searchQuery: string
    var compose: Compose
    var isSending: bool

    constructor (initial: seq<Email>)
      ensures emails == initial && selectedFolder == FolderView(Inbox) && selectedEmail.None?
      ensures !isComposing && searchQuery == "" && compose == EmptyCompose && !isSending
    {
      emails := initial;
      selectedFolder := FolderView(Inbox);
      selectedEmail := None;
      isComposing := false;
      searchQuery := "";
      compose := EmptyCompose;
      isSending := false;
    }

    /** The list the window shows now. */
    function FilteredEmails(): (r: seq<Email>)
      reads this
      ensures forall e :: e in r <==> e in emails && MatchesSearch(e, searchQuery) && InView(e, selectedFolder)
    {
      Listed(emails, searchQuery, selectedFolder)
    }

    /** Choosing a sidebar entry changes the view and drops the open email. */
    method SelectFolder(view: View)
      modifies this`selectedFolder, this`selectedEmail
      ensures selectedFolder == view && selectedEmail.None?
    {
      selectedFolder := view;
      selectedEmail := None;
    }

    method MarkAsRead(id: string)
      modifies this`emails
      ensures emails == Updated(old(emails), id, (e: Email) => e.(read := true))
      ensures forall e :: e in emails && e.id == id ==> e.read
    {
      emails := Updated(emails, id, (e: Email) => e.(read := true));
    }

    /** Opening an email shows it (as it was before) and marks it read in the mailbox. */
    method Open(e: Email)
      modifies this`emails, this`selectedEmail
      ensures selectedEmail == Some(e)
      ensures emails == Updated(old(emails), e.id, (x: Email) => x.(read := true))
    {
      selectedEmail := Some(e);
      MarkAsRead(e.id);
    }

    method ToggleStar(id: string)
      modifies this`emails
      ensures emails == Updated(old(emails), id, (e: Email) => e.(starred := !e.starred))
    {
      emails := Updated(emails, id, (e: Email) => e.(starred := !e.starred));
    }

    /** To the trash: only the matching email's folder changes, and nothing stays open. */
    method MoveToTrash(id: string)
      modifies this`emails, this`selectedEmail
      ensures emails == Updated(old(emails), id, (e: Email) => e.(folder := Trash))
      ensures selectedEmail.None?
    {
      emails := Updated(emails, id, (e: Email) => e.(folder := Trash));
      selectedEmail := None;
    }

    method ArchiveEmail(id: string)
      modifies this`emails, this`selectedEmail
      ensures emails == Updated(old(emails), id, (e: Email) => e.(folder := Archive))
      ensures selectedEmail.None?
    {
      emails := Updated(emails, id, (e: Email) => e.(folder := Archive));
      selectedEmail := None;
    }

    method DeleteEmail(id: string)
      modifies this`emails, this`selectedEmail
      ensures emails == Filter(old(emails), (e: Email) => e.id != id)
      ensures forall e :: e in emails <==> e in old(emails) && e.id != id
      ensures selectedEmail.None?
    {
      emails := Filter(emails, (e: Email) => e.id != id);
      selectedEmail := None;
    }

    /** Filling in the compose form. */
    method Write(c: Compose)
      modifies this`compose, this`isComposing
      ensures compose == c && isComposing
    {
      compose := c;
      isComposing := true;
    }

    /**
     * Send: without a recipient or a subject nothing is sent; otherwise one
     * read, unstarred copy goes first into Sent and the form closes empty.
     */
    method SendEmail(id: string, now: nat)
      modifies this`emails, this`isComposing, this`compose, this`isSending
      ensures IsBlank(old(compose).to) || IsBlank(old(compose).subject) ==>
        emails == old(emails) && compose == old(compose) && isComposing == old(isComposing) && isSending == old(isSending)
      ensures !IsBlank(old(compose).to) && !IsBlank(old(compose).subject) ==>
        && var c := old(compose);
        && emails == [Email(id, OwnAddress, c.to, c.subject, c.body, now, true, false, Sent)] + old(emails)
        && !isComposing && compose == EmptyCompose && !isSending
    {
      TrimEmptyIffBlank(compose.to);
      TrimEmptyIffBlank(compose.subject);
      if Trim(compose.to) == [] || Trim(compose.subject) == [] {
        return;
      }
      isSending := true;
      var sent := Email(id, OwnAddress, compose.to, compose.subject, compose.body, now, true, false, Sent);
      emails := [sent] + emails;
      isComposing := false;
      compose := EmptyCompose;
      isSending := false;
    }

    /** Save draft: one read, unstarred copy goes first into Drafts, with '(No subject)' for an empty subject. */
    method SaveDraft(id: string, now: nat)
      modifies this`emails, this`isComposing, this`compose
      ensures var c := old(compose);
        && emails == [Email(id, OwnAddress, c.to, if c.subject == "" then NoSubject else c.subject, c.body, now, true, false, Drafts)] + old(emails)
        && emails[0].subject != ""
      ensures !isComposing && compose == EmptyCompose
    {
      var subject := if compose.subject == "" then NoSubject else compose.subject;
      var draft := Email(id, OwnAddress, compose.to, subject, compose.body, now, true, false, Drafts);
      emails := [draft] + emails;
      isComposing := false;
      compose := EmptyCompose;
    }

    /** Reply to the open email. */
    method Reply(dateText: string)
      requires selectedEmail.Some?
      modifies this`compose, this`isComposing
      ensures isComposing && compose == ReplyTo(selectedEmail.value, dateText)
    {
      isComposing := true;
      compose := ReplyTo(selectedEmail.value, dateText);
    }

    /** Forward the open email. */
    method Forward(dateText: string)
      requires selectedEmail.Some?
      modifies this`compose, this`isComposing
      ensures isComposing && compose == ForwardOf(selectedEmail.value, dateText)
    {
      isComposing := true;
      compose := ForwardOf(selectedEmail.value, dateText);
    }
  }
}

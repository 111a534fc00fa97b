/**
 * The help and support widget (components/help-support-widget.tsx): the quick-help search
 * and the chat box whose message is sent only when it holds more than white space.
 */
module HelpSupport {
  import opened Seqs
  import opened Text

  datatype HelpItem = HelpItem(question: string, answer: string)

  const MessageSent := "Message sent to support team! We'll get back to you soon."

  /** The lower-cased question or the lower-cased answer contains the lower-cased query. */
  function HelpMatches(query: string): HelpItem -> bool {
    (item: HelpItem) => ContainsIgnoringCase(item.question, query) || ContainsIgnoringCase(item.answer, query)
  }

  /** `filteredHelp`: there is no special case for an empty query. */
  function FilteredHelp(items: seq<HelpItem>, query: string): (r: seq<HelpItem>)
    ensures Selects(r, items, HelpMatches(query))
    ensures SubsequenceOf(r, items)
  {
    FilterSelects(HelpMatches(query), items);
    Filter(HelpMatches(query), items)
  }

  /** An item is listed iff it is one of the items and its question or answer contains the query. */
  lemma FilteredHelpMembership(items: seq<HelpItem>, query: string, item: HelpItem)
    ensures item in FilteredHelp(items, query) <==>
              item in items && (ContainsIgnoringCase(item.question, query) || ContainsIgnoringCase(item.answer, query))
  {
    var r := FilteredHelp(items, query);
    if item in r {
      var i :| 0 <= i < |r| && r[i] == item;
    }
    if item in items && HelpMatches(query)(item) {
      var i :| 0 <= i < |items| && items[i] == item;
    }
  }

  /** The empty string occurs in every text, so an empty query lists every item in order. */
  lemma EmptyQueryKeepsAll(items: seq<HelpItem>)
    ensures FilteredHelp(items, "") == items
  {
    forall i | 0 <= i < |items| ensures HelpMatches("")(items[i]) {
      assert ToLower("") == "";
      ContainsEmpty(ToLower(items[i].question));
    }
    FilterKeepsAll(HelpMatches(""), items);
  }

  /** `!chatMessage.trim()`: the send button is disabled exactly for a blank message. */
  function SendDisabled(message: string): (disabled: bool)
    ensures disabled <==> IsBlank(message)
  {
    TrimEmptyIffBlank(message);
    Trim(message) == ""
  }

  class HelpSupportWidget {
    var isOpen: bool
    var searchQuery: string
    var chatMessage: string
    /** The messages shown with `alert`, oldest first. */
    var alerts: seq<string>

    constructor ()
      ensures !isOpen && searchQuery == "" && chatMessage == "" && alerts == []
    {
      isOpen, searchQuery, chatMessage, alerts := false, "", "", [];
    }

    /** `handleSendMessage`: confirm and clear a message that is not blank; ignore a blank one. */
    method SendMessage()
      modifies this`chatMessage, this`alerts
      ensures !IsBlank(old(chatMessage)) ==> alerts == old(alerts) + [MessageSent] && chatMessage == ""
      ensures IsBlank(old(chatMessage)) ==> alerts == old(alerts) && chatMessage == old(chatMessage)
      ensures SendDisabled(chatMessage)
    {
      TrimEmptyIffBlank(chatMessage);
      if Trim(chatMessage) != "" {
        alerts := alerts + [MessageSent];
        chatMessage := "";
      }
    }

    method TypeMessage(text: string)
      modifies this`chatMessage
      ensures chatMessage == text
    {
      chatMessage := text;
    }
  }
}

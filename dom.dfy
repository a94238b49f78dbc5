/**
 * The page as the extension observes it, and the messages its parts
 * exchange. A gallery card is reduced to the answers of the DOM queries
 * the code makes on it; an interactive control to the three strings the
 * button and tab searches read.
 */
module Dom {
  import opened Wrappers

  datatype Card = Card(
    identity: nat,          // DOM element identity (the key of a WeakSet)
    links: seq<string>,     // `href` of every <a> inside the card, in document order ("" when absent)
    image: Option<string>,  // `src` of the first generated-image <img>, when such an element exists
    hasVideo: bool,         // a video element / video player matches
    hasPlayIcon: bool,      // a play icon or play overlay matches
    text: string,           // the card's `innerText`
    hasUnsaveButton: bool)  // an unsave button matches

  datatype Control = Control(ariaLabel: string, text: string, title: string)

  /** One `{url, id, type}` entry of a deep-analysis reply; "" stands for a missing `url`. */
  datatype AnalysisItem = AnalysisItem(url: string, id: string, kind: string)

  /** The outcome of `Api.requestAnalysis`: a rejected promise, or the list it resolves to. */
  datatype Analysis = Rejected | Resolved(items: seq<AnalysisItem>)
}

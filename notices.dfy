/**
 * What the page tells the user: the message of each notification (as a token
 * instead of its text), its type, the background colour that type selects,
 * and the decisions of the download button and of the quick-option buttons.
 */
module Notices {
  import opened Text
  import opened UrlCheck

  /** One token per distinct message text of the script. */
  datatype Msg =
    | MissingUrl        // no URL pasted
    | InvalidUrl        // not a TikTok URL
    | Processing        // the video is being processed
    | ReadyToDownload   // the video is ready for download
    | Mp4Selected
    | Mp3Selected
    | BulkSelected
    | ProfileSelected
    | RingtoneSelected

  /** A call `showNotification(message, type)`; `kind` is the type string. */
  datatype Notice = Notice(msg: Msg, kind: string)

  const ERROR := "error"
  const SUCCESS := "success"
  const INFO := "info"

  const RED := "#ff4757"
  const GREEN := "#2ed573"
  const BLUE := "#3742fa"

  /** The background colour chosen for a notification type: any type but the two named ones is blue. */
  function Colour(kind: string): (c: string)
    ensures c == RED <==> kind == ERROR
    ensures c == GREEN <==> kind == SUCCESS
    ensures c == BLUE <==> kind != ERROR && kind != SUCCESS
  {
    if kind == ERROR then RED
    else if kind == SUCCESS then GREEN
    else BLUE
  }

  /**
   * The notifications a click on the download button produces, in the order
   * they are shown; the second one of an accepted URL is shown by a timer.
   */
  function DownloadNotices(input: string): (r: seq<Notice>)
    ensures 1 <= |r| <= 2
    ensures |r| == 2 <==> IsValidTikTokUrl(Trim(input))
    ensures |r| == 2 ==> r == [Notice(Processing, INFO), Notice(ReadyToDownload, SUCCESS)]
    ensures |r| == 1 ==> r[0].kind == ERROR && (r[0].msg == MissingUrl <==> OnlyWhitespace(input))
    ensures |r| == 1 ==> r[0].msg in {MissingUrl, InvalidUrl}
  {
    var url := Trim(input);
    TrimEmptyIff(input);
    if url == [] then [Notice(MissingUrl, ERROR)]
    else if !IsValidTikTokUrl(url) then [Notice(InvalidUrl, ERROR)]
    else [Notice(Processing, INFO), Notice(ReadyToDownload, SUCCESS)]
  }

  /** The decision depends only on the trimmed input. */
  lemma DownloadDecidedByTrimmedInput(input: string)
    ensures DownloadNotices(Trim(input)) == DownloadNotices(input)
  {
  }

  /**
   * Trimming happens before the test, so a match whose `.+` character is
   * trailing white space is lost: the raw input matches, yet the click
   * reports an invalid URL.
   */
  lemma TrailingSpaceAfterSlashIsInvalid()
    ensures IsValidTikTokUrl("https://tiktok.com/ ")
    ensures DownloadNotices("https://tiktok.com/ ") == [Notice(InvalidUrl, ERROR)]
  {
    TrailingSpaceCase("https://tiktok.com/ ");
  }

  lemma TrailingSpaceCase(input: string)
    requires input == "https://tiktok.com/ "
    ensures IsValidTikTokUrl(input)
    ensures DownloadNotices(input) == [Notice(InvalidUrl, ERROR)]
  {
    var p := Pattern(true, false);
    assert p == "https://tiktok.com/";
    assert input[0..] == input;
    assert input[..19] == p;
    assert LiteralThenAnyAt(input, 0, p);
    var url := input[..19];
    TrimDropsFinalSpace(input);
    assert Trim(input) == url;
    NoMatchWithEmptyPath(url);
  }

  lemma TrimDropsFinalSpace(input: string)
    requires input == "https://tiktok.com/ "
    ensures Trim(input) == input[..19]
  {
    assert !IsWhitespace(input[0]);
    assert TrimStart(input) == input;
    assert !IsWhitespace(input[18]) && IsWhitespace(input[19]);
    assert TrimEnd(input) == TrimEnd(input[..19]) == input[..19];
  }

  /** The three dialogs a quick option can open. */
  datatype Variant = BulkDownload | ProfileDownload | RingtoneMaker {
    /** The `data-type` tag of the option button that opens this dialog. */
    function Tag(): string {
      match this
      case BulkDownload => "bulk"
      case ProfileDownload => "profile"
      case RingtoneMaker => "ringtone"
    }
  }

  /** What `handleOptionClick` does: the notifications it shows, then the dialogs it opens. */
  datatype Reaction = Reaction(notices: seq<Notice>, opens: seq<Variant>)

  /** `handleOptionClick(type)`: the `switch` over the option tag. */
  function HandleOption(tag: string): (r: Reaction)
    ensures |r.notices| <= 1 && |r.opens| <= 1
    ensures forall n :: n in r.notices ==> n.kind == INFO
    ensures r.notices == [] <==> tag !in {"mp4", "mp3", "bulk", "profile", "ringtone"}
    ensures forall v :: v in r.opens <==> v.Tag() == tag
    ensures r.notices != [] ==> r.notices[0].msg !in {MissingUrl, InvalidUrl, Processing, ReadyToDownload}
  {
    match tag
    case "mp4" => Reaction([Notice(Mp4Selected, INFO)], [])
    case "mp3" => Reaction([Notice(Mp3Selected, INFO)], [])
    case "bulk" => Reaction([Notice(BulkSelected, INFO)], [BulkDownload])
    case "profile" => Reaction([Notice(ProfileSelected, INFO)], [ProfileDownload])
    case "ringtone" => Reaction([Notice(RingtoneSelected, INFO)], [RingtoneMaker])
    case _ => Reaction([], [])
  }

  /** Each known option announces itself with its own message. */
  lemma OptionMessagesDistinct(a: string, b: string)
    requires HandleOption(a).notices != [] && HandleOption(b).notices != []
    requires a != b
    ensures HandleOption(a).notices != HandleOption(b).notices
  {
  }
}

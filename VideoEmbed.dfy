/**
 * How the exercise video player turns an exercise's `videoUrl` into what it
 * shows: a placeholder, an embedded frame (YouTube, Canva, Google Drive), or a
 * plain video element. Everything here is pure string manipulation.
 */
module VideoEmbed {
  import opened Wrappers
  import opened Strings

  const DriveHost := "drive.google.com"
  const DriveFilePath := "drive.google.com/file/d/"
  const CanvaHost := "canva.com"
  const CanvaParams := "embed&autoplay=1&muted=1&loop=1&controls=0"
  const YoutubeEmbedBase := "https://www.youtube-nocookie.com/embed/"
  const YoutubeQueryHead := "?autoplay=1&mute=1&loop=1&playlist="
  const YoutubeQueryTail := "&controls=0&modestbranding=1&rel=0&playsinline=1&enablejsapi=1"

  /** What the player renders. */
  datatype Player = Placeholder | Frame(src: string) | Video(src: string)

  /** A character of the Drive id class `[a-zA-Z0-9_-]`. */
  predicate IsDriveIdChar(c: char) {
    ('a' <= c <= 'z') || ('A' <= c <= 'Z') || ('0' <= c <= '9') || c == '_' || c == '-'
  }

  /** The longest prefix of `s` made of id characters (the greedy `+` of the Drive pattern). */
  function IdRun(s: string): (r: string)
    ensures r <= s
    ensures forall i | 0 <= i < |r| :: IsDriveIdChar(r[i])
    ensures r == s || !IsDriveIdChar(s[|r|])
  {
    if s == [] || !IsDriveIdChar(s[0]) then [] else [s[0]] + IdRun(s[1..])
  }

  /** The Drive pattern matches at `j`: the file path followed by at least one id character. */
  predicate DriveMatchesAt(url: string, j: nat) {
    OccursAt(url, DriveFilePath, j) && j + |DriveFilePath| < |url| && IsDriveIdChar(url[j + |DriveFilePath|])
  }

  /** The leftmost position at or after `from` where the Drive pattern matches. */
  function DriveMatchFrom(url: string, from: nat): (r: Option<nat>)
    decreases |url| - from
    ensures r.Some? ==> from <= r.value && DriveMatchesAt(url, r.value)
    ensures r.Some? ==> forall j | from <= j < r.value :: !DriveMatchesAt(url, j)
    ensures r.None? ==> forall j | from <= j :: !DriveMatchesAt(url, j)
  {
    if from + |DriveFilePath| >= |url| then None
    else if DriveMatchesAt(url, from) then Some(from)
    else DriveMatchFrom(url, from + 1)
  }

  /** `getDriveId`: the id captured by the leftmost match of the Drive pattern. */
  function GetDriveId(url: string): (r: Option<string>)
    ensures r.None? <==> forall j | 0 <= j <= |url| :: !DriveMatchesAt(url, j)
    ensures r.Some? ==> |r.value| > 0 && forall i | 0 <= i < |r.value| :: IsDriveIdChar(r.value[i])
  {
    match DriveMatchFrom(url, 0)
    case None => None
    case Some(j) => Some(IdRun(url[j + |DriveFilePath|..]))
  }

  /** `driveId`: only looked for when the URL mentions the Drive host. */
  function DriveId(url: string): (r: Option<string>)
    ensures r.Some? ==> Contains(url, DriveHost)
    ensures r == GetDriveId(url)
  {
    DriveMatchHasHost(url);
    if Contains(url, DriveHost) then GetDriveId(url) else None
  }

  predicate IsCanva(url: string) { Contains(url, CanvaHost) }

  predicate IsYoutube(url: string) { Contains(url, "youtube") || Contains(url, "youtu.be") }

  function YoutubeEmbed(videoId: string): string {
    YoutubeEmbedBase + videoId + YoutubeQueryHead + videoId + YoutubeQueryTail
  }

  /** The Canva base: query dropped, then the first `/edit` and the first `/watch` turned into `/view`. */
  function CanvaBase(url: string): (r: string)
    ensures var b := BeforeFirst(url, '?');
      !Contains(b, "/edit") && !Contains(b, "/watch") ==> r == b
  {
    ReplaceFirst(ReplaceFirst(BeforeFirst(url, '?'), "/edit", "/view"), "/watch", "/view")
  }

  function CanvaEmbed(url: string): string {
    CanvaBase(url) + "?" + CanvaParams
  }

  function DrivePreview(id: string): string {
    "https://drive.google.com/file/d/" + id + "/preview"
  }

  function DriveDownload(id: string): string {
    "https://drive.google.com/uc?export=download&id=" + id
  }

  /**
   * `embedUrl`. `youtubeId` stands for the YouTube id pattern: whatever id it
   * extracts from the URL, if any.
   */
  function EmbedUrl(url: string, youtubeId: string -> Option<string>): (r: Option<string>)
    ensures r.Some? ==> |r.value| > 0
  {
    if IsYoutube(url) then
      match youtubeId(url)
      case Some(v) => Some(YoutubeEmbed(v))
      case None => None
    else if IsCanva(url) then Some(CanvaEmbed(url))
    else match DriveId(url)
      case Some(id) => Some(DrivePreview(id))
      case None => None
  }

  /** What `VideoPlayer` renders for an exercise whose `videoUrl` may be absent. */
  function Render(videoUrl: Option<string>, youtubeId: string -> Option<string>): (r: Player)
    ensures r.Placeholder? <==> (videoUrl.None? || videoUrl.value == "")
    ensures r.Frame? <==> (videoUrl.Some? && videoUrl.value != "" && EmbedUrl(videoUrl.value, youtubeId).Some?)
  {
    if videoUrl.None? || videoUrl.value == "" then Placeholder
    else
      var url := videoUrl.value;
      match EmbedUrl(url, youtubeId)
      case Some(e) => Frame(e)
      case None =>
        match DriveId(url)
        case Some(id) => Video(DriveDownload(id))
        case None => Video(url)
  }

  // ---------------------------------------------------------------------
  // Properties of the derivation.

  /**
   * The captured Drive id is a non-empty, maximal run of id characters that
   * directly follows the leftmost match of the file path.
   */
  lemma DriveIdIsMaximalRun(url: string, j: nat)
    requires DriveMatchFrom(url, 0) == Some(j)
    ensures GetDriveId(url).Some?
    ensures var id := GetDriveId(url).value;
      && |id| > 0
      && (forall i | 0 <= i < |id| :: IsDriveIdChar(id[i]))
      && OccursAt(url, DriveFilePath + id, j)
      && (j + |DriveFilePath| + |id| == |url| || !IsDriveIdChar(url[j + |DriveFilePath| + |id|]))
  {
    var k := j + |DriveFilePath|;
    var rest := url[k..];
    var id := IdRun(rest);
    assert rest[0] == url[k];
    assert |id| > 0;
    assert id == rest[..|id|];
    assert url[j..k + |id|] == url[j..k] + url[k..k + |id|];
    assert url[k..k + |id|] == rest[..|id|];
    assert |id| < |rest| ==> rest[|id|] == url[k + |id|];
  }

  /** Any match of the file path contains the host. */
  lemma DriveMatchHasHost(url: string)
    ensures GetDriveId(url).Some? ==> Contains(url, DriveHost)
  {
    match DriveMatchFrom(url, 0)
    case None =>
    case Some(j) =>
      assert DriveHost <= DriveFilePath;
      OccursAtPrefix(url, DriveFilePath, DriveHost, j);
  }

  /** The `isDrive` test never changes the outcome. */
  lemma DriveHostTestIsImplied(url: string)
    ensures DriveId(url) == GetDriveId(url)
  {
    DriveMatchHasHost(url);
  }

  /** No URL (or an empty one): the placeholder, and no embed. */
  lemma NoUrlGivesPlaceholder(youtubeId: string -> Option<string>)
    ensures Render(None, youtubeId) == Placeholder
    ensures Render(Some(""), youtubeId) == Placeholder
  {
  }

  /** The YouTube test wins: such a URL never takes the Canva or Drive branch. */
  lemma YoutubeHasPriority(url: string, youtubeId: string -> Option<string>)
    requires IsYoutube(url)
    ensures youtubeId(url).None? ==> EmbedUrl(url, youtubeId) == None
    ensures youtubeId(url).Some? ==> EmbedUrl(url, youtubeId) == Some(YoutubeEmbed(youtubeId(url).value))
  {
  }

  /** The YouTube embed starts with the no-cookie base and the id, and loops on a one-video playlist of that id. */
  lemma YoutubeEmbedLoopsOnItself(v: string)
    ensures YoutubeEmbedBase + v <= YoutubeEmbed(v)
    ensures Contains(YoutubeEmbed(v), "playlist=" + v)
  {
    var e := YoutubeEmbed(v);
    var at := |YoutubeEmbedBase| + |v| + |YoutubeQueryHead| - |"playlist="|;
    assert e == (YoutubeEmbedBase + v) + YoutubeQueryHead + v + YoutubeQueryTail;
    assert YoutubeQueryHead == "?autoplay=1&mute=1&loop=1&" + "playlist=";
    assert e[at..at + |"playlist=" + v|] == "playlist=" + v;
    assert OccursAt(e, "playlist=" + v, at);
  }

  /** A Canva URL that is not a YouTube one takes the Canva branch. */
  lemma CanvaBranch(url: string, youtubeId: string -> Option<string>)
    requires !IsYoutube(url) && IsCanva(url)
    ensures EmbedUrl(url, youtubeId) == Some(CanvaBase(url) + "?" + CanvaParams)
  {
  }

  /** The rewritten Canva base carries no query: neither the split nor the two rewrites can add a `?`. */
  lemma CanvaBaseHasNoQuery(url: string)
    ensures '?' !in CanvaBase(url)
  {
    var b0 := BeforeFirst(url, '?');
    var b1 := ReplaceFirst(b0, "/edit", "/view");
    assert '?' !in "/view";
    assert '?' !in b1;
  }

  /** Joining two `?`-free parts with a `?` gives a string whose only `?` is the joining one. */
  lemma OnlyJoiningQuery(b: string, p: string)
    requires '?' !in b && '?' !in p
    ensures var e := b + "?" + p;
      e[|b|] == '?' && forall i | 0 <= i < |e| && i != |b| :: e[i] != '?'
  {
    var e := b + "?" + p;
    forall i | 0 <= i < |e| && i != |b| ensures e[i] != '?' {
      if i < |b| {
        assert e[i] == b[i];
      } else {
        assert e[i] == p[i - |b| - 1];
      }
    }
  }

  lemma CanvaParamsHaveNoQuery()
    ensures '?' !in CanvaParams
  {
  }

  /** So the Canva embed has exactly one `?`, the one right after the base. */
  lemma CanvaEmbedHasOneQuery(url: string)
    ensures var e, q := CanvaEmbed(url), |CanvaBase(url)|;
      q < |e| && e[q] == '?' && forall i | 0 <= i < |e| && i != q :: e[i] != '?'
  {
    CanvaBaseHasNoQuery(url);
    CanvaParamsHaveNoQuery();
    OnlyJoiningQuery(CanvaBase(url), CanvaParams);
  }

  /** A Canva URL with no query string is rewritten in place and nothing of it is dropped. */
  lemma CanvaWithoutQuery(url: string)
    requires '?' !in url
    ensures CanvaBase(url) == ReplaceFirst(ReplaceFirst(url, "/edit", "/view"), "/watch", "/view")
  {
    BeforeFirstWhenAbsent(url, '?');
  }

  /** A Drive URL that is neither YouTube nor Canva embeds the Drive preview of its id. */
  lemma DriveEmbed(url: string, id: string, youtubeId: string -> Option<string>)
    requires !IsYoutube(url) && !IsCanva(url) && GetDriveId(url) == Some(id)
    ensures EmbedUrl(url, youtubeId) == Some(DrivePreview(id))
  {
    DriveHostTestIsImplied(url);
  }

  /** Without an embed, the raw source is the Drive download link when there is an id, else the URL itself. */
  lemma FallbackSource(url: string, youtubeId: string -> Option<string>)
    requires url != "" && EmbedUrl(url, youtubeId).None?
    ensures GetDriveId(url).Some? ==> Render(Some(url), youtubeId) == Video(DriveDownload(GetDriveId(url).value))
    ensures GetDriveId(url).None? ==> Render(Some(url), youtubeId) == Video(url)
  {
    DriveHostTestIsImplied(url);
  }
}

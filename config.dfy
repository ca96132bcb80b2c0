/** The settings the sidebar collects before a run: the platform, the tone,
    how many captions to ask for per topic, the sampling temperature and
    the export format. The widgets only offer values in these ranges. */
module Config {

  datatype Platform = Instagram | TikTok | YouTube | Twitter

  datatype Tone = Funny | Motivational | Professional | Casual | Sarcastic

  datatype ExportFormat = Csv | Txt

  /** The caption-count slider runs from 1 to 10. */
  type CaptionCount = n: nat | 1 <= n <= 10 witness 5

  /** The temperature slider runs from 0.5 to 1.0. */
  type Temperature = t: real | 0.5 <= t <= 1.0 witness 0.8

  datatype Settings = Settings(
    platform: Platform,
    tone: Tone,
    numCaptions: CaptionCount,
    temperature: Temperature,
    exportFormat: ExportFormat)

  /** The label the platform selector shows, which the prompt embeds: a
      single word. */
  function PlatformName(p: Platform): (name: string)
    ensures name != [] && ' ' !in name
  {
    match p
    case Instagram => "Instagram"
    case TikTok => "TikTok"
    case YouTube => "YouTube"
    case Twitter => "Twitter"
  }

  /** The label the tone selector shows, which the prompt embeds: a single
      word. */
  function ToneName(t: Tone): (name: string)
    ensures name != [] && ' ' !in name
  {
    match t
    case Funny => "Funny"
    case Motivational => "Motivational"
    case Professional => "Professional"
    case Casual => "Casual"
    case Sarcastic => "Sarcastic"
  }

  /** No two platforms share a label. */
  lemma PlatformNameInjective(p: Platform, q: Platform)
    requires PlatformName(p) == PlatformName(q)
    ensures p == q
  {
  }

  /** No two tones share a label. */
  lemma ToneNameInjective(t: Tone, u: Tone)
    requires ToneName(t) == ToneName(u)
    ensures t == u
  {
  }
}

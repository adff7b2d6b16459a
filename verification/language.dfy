/**
 * Interface text in English and Tamil: the lookup `t(key)` with its fallback to
 * the key, the language chosen at start-up, and switching language.
 */
module Language {
  import opened Base

  const LanguageKey: string := "resq-language"

  /** The languages `setLanguage` accepts. */
  datatype Lang = En | Ta

  function Code(l: Lang): string {
    match l
    case En => "en"
    case Ta => "ta"
  }

  datatype Entry = Entry(en: string, ta: string)

  /** The translation table. */
  const Translations: map<string, Entry> := map[
    "nav.home" := Entry("Home", "முகப்பு"),
    "nav.report" := Entry("Report", "புகார் செய்"),
    "nav.track" := Entry("Track", "கண்காணி"),
    "nav.dashboard" := Entry("Dashboard", "தகவல் பலகை"),
    "nav.admin" := Entry("Admin", "நிர்வாகம்"),
    "nav.logout" := Entry("Logout", "வெளியேறு"),
    "auth.title" := Entry("Sign In", "உள்நுழைய"),
    "auth.subtitle" := Entry("Rescue with ResQ AI", "ResQ AI உடன் மீட்பு பணியில் சேரவும்"),
    "auth.email" := Entry("Email", "மின்னஞ்சல்"),
    "auth.password" := Entry("Password", "கடவுச்சொல்"),
    "auth.login" := Entry("Login", "உள்நுழை"),
    "auth.create_account" := Entry("Create Account", "கணக்கை உருவாக்கவும்"),
    "auth.welcome_back" := Entry("Welcome Back", "மீண்டும் வருக"),
    "auth.citizen_login" := Entry("Citizen Login", "குடிமகன் உள்நுழைவு"),
    "auth.responder_login" := Entry("Responder Login", "பதிலளிப்பவர் உள்நுழைவு"),
    "auth.demo.citizen" := Entry("Demo Citizen", "டெமோ குடிமகன்"),
    "auth.demo.admin" := Entry("Demo Admin", "டெமோ நிர்வாகி"),
    "dash.welcome" := Entry("Welcome back", "மீண்டும் வருக"),
    "dash.active_reports" := Entry("Active Reports", "செயலில் உள்ள புகார்கள்"),
    "dash.resolved" := Entry("Resolved", "தீர்க்கப்பட்டது"),
    "dash.community_alerts" := Entry("Community Alerts", "சமூக விழிப்பூட்டல்கள்"),
    "dash.report_emergency" := Entry("Report an Emergency", "அவசரகால புகாரை அளியுங்கள்"),
    "dash.report_desc" := Entry("AI will analyze and route to correct teams instantly.", "AI உடனடியாக பகுப்பாய்வு செய்து சரியான குழுக்களுக்கு அனுப்பும்."),
    "dash.track_previous" := Entry("Track Previous Requests", "முந்தைய கோரிக்கைகளை கண்காணிக்கவும்"),
    "dash.track_desc" := Entry("View live status and responder locations on map.", "வரைபடத்தில் நேரடி நிலை மற்றும் பதிலளிப்பவர் இருப்பிடங்களைக் காண்க."),
    "dash.your_reports" := Entry("Your Reports", "உங்கள் புகார்கள்"),
    "dash.search_placeholder" := Entry("Search reports...", "புகாரைத் தேடுங்கள்..."),
    "dash.stats.this_month" := Entry("This Month", "இந்த மாதம்"),
    "dash.stats.avg_response" := Entry("Avg Response", "சராசரி பதில் நேரம்"),
    "landing.title" := Entry("Report Emergencies in Seconds", "வினடிகளில் அவசரகால புகாரை அளியுங்கள்"),
    "landing.subtitle" := Entry("AI automatically alerts Police, Ambulance, and Fire teams with severity classification & proof verification.", "AI தானாகவே போலீஸ், ஆம்புலன்ஸ் மற்றும் தீயணைப்பு குழுக்களுக்கு தீவிர வகைப்பாடு மற்றும் ஆதார சரிபார்ப்புடன் எச்சரிக்கிறது."),
    "landing.get_started" := Entry("Get Started", "தொடங்குங்கள்"),
    "landing.track_request" := Entry("Track Request", "கோரிக்கையை கண்காணி"),
    "landing.how_it_works" := Entry("How It Works", "இது எப்படி செயல்படுகிறது"),
    "landing.features" := Entry("Powerful Features", "சக்திவாய்ந்த அம்சங்கள்"),
    "landing.trusted" := Entry("Trusted by Emergency Services", "அவசரகால சேவைகளால் நம்பப்படுகிறது")
  ]

  /** `entry[language]`: only the two language codes name a field of an entry. */
  function Field(e: Entry, language: string): Option<string> {
    if language == "en" then Some(e.en) else if language == "ta" then Some(e.ta) else None
  }

  /** `t(key)` under the current language: the entry's text, or the key when there is none or it is empty. */
  function Translate(language: string, key: string): (r: string)
    ensures key !in Translations ==> r == key
    ensures (key in Translations && Field(Translations[key], language).Some?
             && Field(Translations[key], language).value != "")
            ==> r == Field(Translations[key], language).value
    ensures r == key || (key in Translations && Field(Translations[key], language) == Some(r))
  {
    if key in Translations then
      match Field(Translations[key], language)
      case Some(text) => if text != "" then text else key
      case None => key
    else key
  }

  /** Every entry has text in both languages. */
  lemma TableComplete()
    ensures forall key :: key in Translations ==> Translations[key].en != "" && Translations[key].ta != ""
  {
  }

  /** Under English or Tamil a known key never falls back to itself. */
  lemma KnownKeysTranslate(l: Lang, key: string)
    requires key in Translations
    ensures Translate(Code(l), key) == Field(Translations[key], Code(l)).value
  {
    TableComplete();
  }

  /** Under any other language code every lookup gives back the key. */
  lemma UnknownLanguageFallsBack(language: string, key: string)
    requires language != "en" && language != "ta"
    ensures Translate(language, key) == key
  {
  }

  datatype LanguageState = LanguageState(language: string, store: Store)

  /** The language at start-up: the stored value, unchecked, or "en" when there is none. */
  function InitialLanguage(store: Store): (language: string)
    ensures LanguageKey in store && store[LanguageKey] != "" ==> language == store[LanguageKey]
    ensures (LanguageKey !in store || store[LanguageKey] == "") ==> language == "en"
  {
    if LanguageKey in store && store[LanguageKey] != "" then store[LanguageKey] else "en"
  }

  /** `setLanguage`: switch and remember. */
  function SetLanguage(s: LanguageState, l: Lang): (r: LanguageState)
    ensures r.language == Code(l)
    ensures InitialLanguage(r.store) == r.language
    ensures forall k :: k in s.store && k != LanguageKey ==> k in r.store && r.store[k] == s.store[k]
    ensures forall k :: k in r.store ==> k in s.store || k == LanguageKey
  {
    LanguageState(Code(l), s.store[LanguageKey := Code(l)])
  }
}

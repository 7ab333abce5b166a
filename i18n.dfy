/** The message store: per-language maps from message keys to texts, the
    set of supported languages (English and Vietnamese), the fallback
    language, and the lookup that falls back first to the fallback
    language and then to the key itself. Message files come in already
    read and decoded, as a parameter. */
module I18nModel {
  import opened Common

  const English: string := "en"
  const Vietnamese: string := "vi"
  const DefaultLanguage: string := English
  const SupportedLanguages: set<string> := {English, Vietnamese}

  predicate IsSupportedLanguage(lang: string) { lang in SupportedLanguages }

  /** The messages of one language; none when it has no map yet. */
  function MessagesOf(ms: map<string, map<string, string>>, lang: string): map<string, string>
  {
    if lang in ms then ms[lang] else map[]
  }

  /** A table overridden by a decoded message file, or kept when there is none. */
  function WithFile(table: map<string, string>, file: Option<map<string, string>>): map<string, string>
  {
    if file.Some? then table + file.value else table
  }

  /** The language named by an Accept-Language header: exact names first,
      then the first two characters, then the default. */
  function ParseLanguageFromHeader(header: string): (r: string)
    ensures IsSupportedLanguage(r)
    ensures header == "" ==> r == DefaultLanguage
  {
    if header == "" then DefaultLanguage
    else if header == "vi" || header == "vi-VN" || header == "vietnamese" then Vietnamese
    else if header == "en" || header == "en-US" || header == "english" then English
    else if |header| >= 2 && header[..2] == "vi" then Vietnamese
    else if |header| >= 2 && header[..2] == "en" then English
    else DefaultLanguage
  }

  /** The exact names all begin with their two-letter code, so the header's
      language is Vietnamese exactly when it begins with "vi". */
  lemma HeaderLanguageIsPrefix(header: string)
    ensures ParseLanguageFromHeader(header) == Vietnamese <==> HasPrefix(header, "vi")
    ensures ParseLanguageFromHeader(header) == English <==> !HasPrefix(header, "vi")
  {
    if header == "vi-VN" {
      assert header[..2] == "vi";
    } else if header == "vietnamese" {
      assert header[..2] == "vi";
    } else if header == "en-US" {
      assert header[..2] == "en";
    } else if header == "english" {
      assert header[..2] == "en";
    }
  }

  class I18n {
    var messages: map<string, map<string, string>>
    var fallbackLang: string
    const supportedLang: set<string> := SupportedLanguages

    /** A store holding the built-in English and Vietnamese tables, each
        overridden by its language's message file when that file decodes
        (`files` gives the decoded files of the message directory, None for
        one that is missing or malformed), falling back to English. */
    constructor (englishDefaults: map<string, string>, vietnameseDefaults: map<string, string>,
                 files: string -> Option<map<string, string>>)
      ensures MessagesOf(messages, English) == WithFile(englishDefaults, files(English))
      ensures MessagesOf(messages, Vietnamese) == WithFile(vietnameseDefaults, files(Vietnamese))
      ensures forall lang :: lang != English && lang != Vietnamese ==> MessagesOf(messages, lang) == map[]
      ensures fallbackLang == DefaultLanguage && supportedLang == SupportedLanguages
    {
      messages := map[English := englishDefaults, Vietnamese := vietnameseDefaults];
      fallbackLang := DefaultLanguage;
      new;
      LoadMessagesFromFiles(files);
    }

    /** Only English and Vietnamese are supported. */
    predicate IsSupported(lang: string)
      reads this
      ensures IsSupported(lang) <==> lang == English || lang == Vietnamese
    {
      lang in supportedLang
    }

    method SetFallbackLanguage(lang: string)
      modifies this`fallbackLang
      ensures fallbackLang == lang
    {
      fallbackLang := lang;
    }

    /** The text for a key: the requested language's, else the fallback
        language's, else the key itself. */
    function GetMessage(lang: string, key: string): (r: string)
      reads this
      ensures key in MessagesOf(messages, lang) ==> r == messages[lang][key]
      ensures key !in MessagesOf(messages, lang) && lang != fallbackLang && key in MessagesOf(messages, fallbackLang) ==>
        r == messages[fallbackLang][key]
      ensures key !in MessagesOf(messages, lang) && (lang == fallbackLang || key !in MessagesOf(messages, fallbackLang)) ==>
        r == key
    {
      if lang in messages && key in messages[lang] then messages[lang][key]
      else if lang != fallbackLang && fallbackLang in messages && key in messages[fallbackLang] then messages[fallbackLang][key]
      else key
    }

    method AddMessage(lang: string, key: string, message: string)
      modifies this`messages
      ensures messages == old(messages)[lang := MessagesOf(old(messages), lang)[key := message]]
      ensures GetMessage(lang, key) == message
    {
      var m := if lang in messages then messages[lang] else map[];
      messages := messages[lang := m[key := message]];
    }

    /** Adds every pair of `add` to the language's messages, in whatever
        order the map yields them. */
    method AddMessages(lang: string, add: map<string, string>)
      modifies this`messages
      ensures messages == old(messages)[lang := MessagesOf(old(messages), lang) + add]
    {
      var inner := if lang in messages then messages[lang] else map[];
      ghost var base := inner;
      var keys := add.Keys;
      ghost var done: set<string> := {};
      assert Restrict(add, done) == map[];
      assert base + Restrict(add, done) == base;
      while keys != {}
        invariant keys == add.Keys - done && done <= add.Keys
        invariant inner == base + Restrict(add, done)
        invariant messages == old(messages)
        decreases keys
      {
        var k :| k in keys;
        RestrictAdd(add, done, k);
        UnionUpdate(base, Restrict(add, done), k, add[k]);
        inner := inner[k := add[k]];
        keys := keys - {k};
        done := done + {k};
      }
      RestrictAll(add, done);
      messages := messages[lang := inner];
    }

    /** Loads a decoded message file for every supported language; a
        language whose file is missing or malformed (None) is skipped and
        the others still load. */
    method LoadMessagesFromFiles(files: string -> Option<map<string, string>>)
      modifies this`messages
      ensures forall lang :: lang in supportedLang && files(lang).Some? ==>
        lang in messages && messages[lang] == MessagesOf(old(messages), lang) + files(lang).value
      ensures forall lang :: lang !in supportedLang || files(lang).None? ==>
        MessagesOf(messages, lang) == MessagesOf(old(messages), lang)
    {
      var langs := supportedLang;
      ghost var done: set<string> := {};
      while langs != {}
        invariant langs == supportedLang - done && done <= supportedLang
        invariant forall lang :: lang in done && files(lang).Some? ==>
          lang in messages && messages[lang] == MessagesOf(old(messages), lang) + files(lang).value
        invariant forall lang :: lang !in done || files(lang).None? ==>
          MessagesOf(messages, lang) == MessagesOf(old(messages), lang)
        decreases langs
      {
        var lang :| lang in langs;
        var loaded := files(lang);
        if loaded.Some? {
          AddMessages(lang, loaded.value);
        }
        langs := langs - {lang};
        done := done + {lang};
      }
    }
  }

  /** The pairs of m whose keys are in ks. */
  function Restrict(m: map<string, string>, ks: set<string>): (r: map<string, string>)
    ensures r.Keys == m.Keys * ks
    ensures forall k :: k in r ==> r[k] == m[k]
  {
    map k | k in m && k in ks :: m[k]
  }

  lemma RestrictAdd(m: map<string, string>, ks: set<string>, k: string)
    requires k in m
    ensures Restrict(m, ks + {k}) == Restrict(m, ks)[k := m[k]]
  {
  }

  lemma RestrictAll(m: map<string, string>, ks: set<string>)
    requires m.Keys <= ks
    ensures Restrict(m, ks) == m
  {
  }

  lemma UnionUpdate(a: map<string, string>, b: map<string, string>, k: string, v: string)
    ensures (a + b)[k := v] == a + b[k := v]
  {
  }

  /** Adding a message leaves every other lookup as it was, unless it fills
      a gap that the lookup was falling back through. */
  lemma AddMessageKeepsOthers(before: map<string, map<string, string>>, lang: string, key: string, message: string,
                              l: string, k: string)
    requires l != lang || k != key
    ensures var after := before[lang := MessagesOf(before, lang)[key := message]];
      (k in MessagesOf(after, l) <==> k in MessagesOf(before, l) || (l == lang && k == key))
      && (k in MessagesOf(before, l) ==> MessagesOf(after, l)[k] == MessagesOf(before, l)[k])
  {
  }
}

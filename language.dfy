/**
 * The interface language of the dashboard: the two translation tables,
 * `tr_text` and `toggle_language`.
 */
module Language {

  /** The English texts of `init_translations`. */
  const English: map<string, string> := map[
      "window_title" := "CRM Dashboard",
      "customers" := "Customers",
      "products" := "Products",
      "analytics" := "Analytics",
      "add_customer" := "Add Customer",
      "import_customers" := "Import Customers",
      "export_excel" := "Export to Excel",
      "name" := "Name",
      "email" := "Email",
      "phone" := "Phone",
      "category" := "Category",
      "success" := "Success",
      "error" := "Error",
      "warning" := "Warning",
      "download_template" := "Download Template"
    ]

  /** The Arabic texts of `init_translations`, under the same keys. */
  const Arabic: map<string, string> := map[
      "window_title" := "لوحة إدارة العملاء",
      "customers" := "العملاء",
      "products" := "المنتجات",
      "analytics" := "التحليلات",
      "add_customer" := "إضافة عميل",
      "import_customers" := "استيراد العملاء",
      "export_excel" := "تصدير إلى Excel",
      "name" := "الاسم",
      "email" := "البريد الإلكتروني",
      "phone" := "الهاتف",
      "category" := "الفئة",
      "success" := "نجاح",
      "error" := "خطأ",
      "warning" := "تحذير",
      "download_template" := "تحميل النموذج"
    ]

  const Translations: map<string, map<string, string>> := map["en" := English, "ar" := Arabic]

  /** The values `current_language` takes. */
  predicate IsLanguage(lang: string) {
    lang == "en" || lang == "ar"
  }

  /**
   * `tr_text`: the current language's text for `key`, or the key itself when it
   * has none. A direct definition; `TranslationKeysAgree` and
   * `FallbackIndependentOfLanguage` state what it means across the two languages.
   */
  function Translate(lang: string, key: string): (text: string)
    requires IsLanguage(lang)
    ensures key in Translations[lang] ==> text == Translations[lang][key]
    ensures key !in Translations[lang] ==> text == key
  {
    var table := Translations[lang];
    if key in table then table[key] else key
  }

  /** Both tables translate the same keys. */
  lemma TranslationKeysAgree()
    ensures English.Keys == Arabic.Keys
  {
    forall k ensures k in English <==> k in Arabic {
    }
  }

  /** A key neither table knows is shown as itself, whatever the language. */
  lemma FallbackIndependentOfLanguage(key: string)
    requires key !in English
    ensures Translate("en", key) == key && Translate("ar", key) == key
  {
    TranslationKeysAgree();
  }

  lemma TranslateExamples()
    ensures Translate("en", "customers") == "Customers"
    ensures Translate("ar", "customers") == "العملاء"
    ensures Translate("ar", "Export Products") == "Export Products"
  {
  }

  /** `toggle_language`: "en" becomes "ar", anything else becomes "en". */
  function Toggled(lang: string): (next: string)
    ensures IsLanguage(next)
    ensures next == "ar" <==> lang == "en"
    ensures IsLanguage(lang) ==> next != lang
  {
    if lang == "en" then "ar" else "en"
  }

  /** Toggling twice returns to the language one started from. */
  lemma ToggleTwice(lang: string)
    requires IsLanguage(lang)
    ensures Toggled(Toggled(lang)) == lang
  {
  }
}

/**
 * The interface translations (js/translations.js): one Arabic table keyed by
 * the English text, and the lookup `t` that falls back to the key.
 */
module Translations {
  // ---------------------------------------------------------------------------
  // The Arabic table, section by section as js/translations.js groups it

  /** Navigation (lines 5-14). */
  const Navigation: map<string, string> := map[
    "Home" := "الرئيسية",
    "About" := "من نحن",
    "Book Session" := "حجز جلسة",
    "Plan Revision" := "خطط للمراجعة",
    "My Timetable" := "جدولي",
    "Subjects" := "المواد",
    "Motivation" := "الح motivation",
    "Contact" := "اتصل بنا",
    "Profile" := "الملف الشخصي",
    "Logout" := "تسجيل الخروج"
  ]

  /** Common (lines 17-21). */
  const Common: map<string, string> := map[
    "Welcome back! Please login to continue" := "مرحباً بعودتك! يرجى تسجيل الدخول للمتابعة",
    "Don't have an account?" := "ليس لديك حساب؟",
    "Sign up here" := "سجل هنا",
    "Already have an account?" := "لديك حساب بالفعل؟",
    "Login here" := "سجل الدخول هنا"
  ]

  /** Language Selection (lines 24-35). */
  const LanguageSelection: map<string, string> := map[
    "Choose your preferences to continue" := "اختر تفضيلاتك للمتابعة",
    "Choose Language" := "اختر اللغة",
    "Continue in English" := "المتابعة بالإنجليزية",
    "Continue in Arabic" := "المتابعة بالعربية",
    "Choose Study Mode" := "اختر طريقة الدراسة",
    "Study Alone" := "الدراسة الفردية",
    "Plan your personal revision schedule" := "خطط لجدول مراجعتك الشخصية",
    "Study with Companion" := "الدراسة مع رفيق",
    "Study with friends and create groups" := "ادرس مع الأصدقاء وأنشئ مجموعات",
    "Group Revision" := "المراجعة الجماعية",
    "Join or create revision groups" := "انضم أو أنشئ مجموعات مراجعة",
    "Continue" := "متابعة"
  ]

  /** Sessions/Booking (lines 38-58). */
  const Booking: map<string, string> := map[
    "Book Your Revision Session" := "احجز جلسة المراجعة",
    "Plan Your Revision" := "خطط للمراجعة",
    "You can book multiple sessions per day. Each session can have different subject and venue." := "يمكنك حجز عدة جلسات في اليوم. يمكن أن يكون لكل جلسة مادة وموقع مختلف.",
    "Create your personal revision timetable. You can add multiple sessions and manage them all in one place." := "أنشئ جدول مراجعتك الشخصي. يمكنك إضافة عدة جلسات وإدارتها جميعاً في مكان واحد.",
    "Select Date" := "اختر التاريخ",
    "Choose the date for your session (2nd - 6th February)" := "اختر تاريخ جلستك (2-6 فبراير)",
    "Select Time" := "اختر الوقت",
    "Choose your session start and end time (24 hours available)" := "اختر وقت بداية ونهاية جلستك (24 ساعة متاحة)",
    "Start Time" := "وقت البداية",
    "End Time" := "وقت النهاية",
    "Select Subject" := "اختر المادة",
    "Choose the subject you want to study" := "اختر المادة التي تريد دراستها",
    "Select Venue" := "اختر المكان",
    "Choose your preferred venue" := "اختر المكان المفضل لديك",
    "Select Floor" := "اختر الطابق",
    "Complete Booking" := "إتمام الحجز",
    "Make a Timetable" := "إنشاء الجدول",
    "Next: Choose Time" := "التالي: اختر الوقت",
    "Next: Choose Subject" := "التالي: اختر المادة",
    "Next: Choose Venue" := "التالي: اختر المكان",
    "Back" := "رجوع"
  ]

  /** Subjects (lines 61-65). */
  const Subjects: map<string, string> := map[
    "Science of Hadith" := "علم الحديث",
    "Jurisprudence" := "الفقه",
    "Principles of Islamic Jurisprudence" := "أصول الفقه",
    "Translation of the Quran" := "ترجمة القرآن الكريم",
    "Hadith" := "الحديث"
  ]

  /** Venues (lines 68-72). */
  const Venues: map<string, string> := map[
    "Home" := "المنزل",
    "Al Basiirah Mosque" := "مسجد البصيرة",
    "Al Hijaaz Mosque" := "مسجد الحجاز",
    "Masjid Abii Bakar" := "مسجد أبي بكر",
    "Al Hidaayah Mosque" := "مسجد الهداية"
  ]

  /** Timetable (lines 75-86). */
  const TimetableTerms: map<string, string> := map[
    "My Timetable" := "جدولي",
    "View and manage your revision schedule" := "عرض وإدارة جدول المراجعة",
    "Add Session" := "إضافة جلسة",
    "Export" := "تصدير",
    "No Sessions Yet" := "لا توجد جلسات بعد",
    "Start planning your revision by adding sessions to your timetable." := "ابدأ في تخطيط مراجعتك بإضافة جلسات إلى جدولك.",
    "Plan Your First Session" := "خطط لأول جلسة",
    "Edit Session" := "تعديل الجلسة",
    "Save Changes" := "حفظ التغييرات",
    "Cancel" := "إلغاء",
    "session" := "جلسة",
    "sessions" := "جلسات"
  ]

  /** Success Messages (lines 89-92). */
  const SuccessMessages: map<string, string> := map[
    "Session Booked Successfully!" := "تم حجز الجلسة بنجاح!",
    "Your booking has been confirmed and sent to your email." := "تم تأكيد حجزك وإرساله إلى بريدك الإلكتروني.",
    "Timetable Updated!" := "تم تحديث الجدول!",
    "Your revision session has been added to your timetable." := "تمت إضافة جلسة المراجعة إلى جدولك."
  ]

  /** Profile (lines 95-110). */
  const ProfileTerms: map<string, string> := map[
    "My Profile" := "ملفي الشخصي",
    "Manage your account and view your information" := "إدارة حسابك وعرض معلوماتك",
    "Your Statistics" := "إحصائياتك",
    "Total Bookings" := "إجمالي الحجوزات",
    "Upcoming Sessions" := "الجلسات القادمة",
    "Completed Sessions" := "الجلسات المكتملة",
    "Account Settings" := "إعدادات الحساب",
    "Username" := "اسم المستخدم",
    "Email Address" := "عنوان البريد الإلكتروني",
    "Current Password" := "كلمة المرور الحالية",
    "New Password" := "كلمة المرور الجديدة",
    "Confirm New Password" := "تأكيد كلمة المرور الجديدة",
    "My Recent Bookings" := "حجوزاتي الأخيرة",
    "View All" := "عرض الكل",
    "No bookings yet." := "لا توجد حجوزات بعد.",
    "Book your first session!" := "احجز أول جلسة!"
  ]

  /** About (lines 113-118). */
  const AboutTerms: map<string, string> := map[
    "About Us" := "من نحن",
    "Our Mission" := "مهمتنا",
    "Our Vision" := "رؤيتنا",
    "What We Offer" := "ما نقدمه",
    "Join Us" := "انضم إلينا",
    "Start Your Journey" := "ابدأ رحلتك"
  ]

  /** Contact (lines 121-132). */
  const Contact: map<string, string> := map[
    "Get In Touch" := "تواصل معنا",
    "We're here to help. Reach out to us anytime!" := "نحن هنا للمساعدة. تواصل معنا في أي وقت!",
    "Email" := "البريد الإلكتروني",
    "Phone" := "الهاتف",
    "Location" := "الموقع",
    "Response Time" := "وقت الاستجابة",
    "We typically respond within 24 hours" := "نرد عادة خلال 24 ساعة",
    "Send us a Message" := "أرسل لنا رسالة",
    "Your Name" := "اسمك",
    "Your Email" := "بريدك الإلكتروني",
    "Your Message" := "رسالتك",
    "Send Message" := "إرسال الرسالة"
  ]

  /** Motivation (lines 135-136). */
  const Motivation: map<string, string> := map[
    "Words of Wisdom" := "كلمات الحكمة",
    "Find inspiration for your learning journey" := "ابحث عن الإلهام لرحلتك التعليمية"
  ]

  /**
   * The whole Arabic table. The object literal names "Home" twice, first under
   * navigation and again under venues; as in the literal, the later entry is
   * the one kept, and the union below keeps its right-hand side's entry for a
   * key both sides hold. "My Timetable" is named twice with the same text.
   */
  const ArTable: map<string, string> := Leading + Venues + TimetableTerms + Trailing

  /** The sections before the venues section, in source order. */
  const Leading: map<string, string> := Navigation + Common + LanguageSelection + Booking + Subjects

  /** The sections after the timetable section, in source order. */
  const Trailing: map<string, string> := SuccessMessages + ProfileTerms + AboutTerms + Contact + Motivation

  /** The language in force: the argument, else the stored choice, else English; an empty text counts as absent. */
  function CurrentLanguage(lang: string, storedLang: string): (current: string)
    ensures current != ""
    ensures lang != "" ==> current == lang
    ensures lang == "" && storedLang != "" ==> current == storedLang
    ensures lang == "" && storedLang == "" ==> current == "en"
  {
    if lang != "" then lang else if storedLang != "" then storedLang else "en"
  }

  /** The lookup of `t` over a given table: its entry when Arabic is in force and the entry is non-empty, else the key. */
  function Lookup(table: map<string, string>, key: string, lang: string, storedLang: string): string {
    if CurrentLanguage(lang, storedLang) == "ar" && key in table && table[key] != "" then table[key] else key
  }

  /** `t(key, lang)`: the lookup over the Arabic table. */
  function T(key: string, lang: string, storedLang: string): string {
    Lookup(ArTable, key, lang, storedLang)
  }

  /** Every key of `m` has some text. */
  predicate Filled(m: map<string, string>) {
    forall key :: key in m ==> m[key] != ""
  }

  /** A union of two filled tables is filled. */
  lemma FilledUnion(a: map<string, string>, b: map<string, string>)
    requires Filled(a) && Filled(b)
    ensures Filled(a + b)
  {
  }

  // Each section holds only non-empty texts.

  lemma NavigationFilled()
    ensures Filled(Navigation)
  {
  }

  lemma CommonFilled()
    ensures Filled(Common)
  {
  }

  lemma LanguageSelectionFilled()
    ensures Filled(LanguageSelection)
  {
  }

  lemma BookingFilled()
    ensures Filled(Booking)
  {
  }

  lemma SubjectsFilled()
    ensures Filled(Subjects)
  {
  }

  lemma VenuesFilled()
    ensures Filled(Venues)
  {
  }

  lemma TimetableTermsFilled()
    ensures Filled(TimetableTerms)
  {
  }

  lemma SuccessMessagesFilled()
    ensures Filled(SuccessMessages)
  {
  }

  lemma ProfileTermsFilled()
    ensures Filled(ProfileTerms)
  {
  }

  lemma AboutTermsFilled()
    ensures Filled(AboutTerms)
  {
  }

  lemma ContactFilled()
    ensures Filled(Contact)
  {
  }

  lemma MotivationFilled()
    ensures Filled(Motivation)
  {
  }

  /** Every entry of the table holds some text, so the lookup's emptiness test never rejects an entry. */
  lemma AllEntriesFilled()
    ensures Filled(ArTable)
  {
    NavigationFilled();
    CommonFilled();
    LanguageSelectionFilled();
    BookingFilled();
    SubjectsFilled();
    VenuesFilled();
    TimetableTermsFilled();
    SuccessMessagesFilled();
    ProfileTermsFilled();
    AboutTermsFilled();
    ContactFilled();
    MotivationFilled();
    FilledUnion(Navigation, Common);
    FilledUnion(Navigation + Common, LanguageSelection);
    FilledUnion(Navigation + Common + LanguageSelection, Booking);
    FilledUnion(Navigation + Common + LanguageSelection + Booking, Subjects);
    FilledUnion(SuccessMessages, ProfileTerms);
    FilledUnion(SuccessMessages + ProfileTerms, AboutTerms);
    FilledUnion(SuccessMessages + ProfileTerms + AboutTerms, Contact);
    FilledUnion(SuccessMessages + ProfileTerms + AboutTerms + Contact, Motivation);
    FilledUnion(Leading, Venues);
    FilledUnion(Leading + Venues, TimetableTerms);
    FilledUnion(Leading + Venues + TimetableTerms, Trailing);
  }

  /** Over a filled table, the lookup gives the entry exactly when Arabic is in force and the key is present. */
  lemma LookupMeaning(table: map<string, string>, key: string, lang: string, storedLang: string)
    requires Filled(table)
    ensures CurrentLanguage(lang, storedLang) == "ar" && key in table ==> Lookup(table, key, lang, storedLang) == table[key]
    ensures CurrentLanguage(lang, storedLang) != "ar" || key !in table ==> Lookup(table, key, lang, storedLang) == key
  {
  }

  /**
   * The lookup returns the Arabic entry exactly when Arabic is in force and
   * the key is in the table; in every other case it returns the key unchanged.
   */
  lemma TranslateMeaning(key: string, lang: string, storedLang: string)
    ensures CurrentLanguage(lang, storedLang) == "ar" && key in ArTable ==> T(key, lang, storedLang) == ArTable[key]
    ensures CurrentLanguage(lang, storedLang) != "ar" || key !in ArTable ==> T(key, lang, storedLang) == key
  {
    AllEntriesFilled();
    LookupMeaning(ArTable, key, lang, storedLang);
  }

  /** A key missing from the right-hand map keeps its left-hand entry in the union. */
  lemma UnionKeepsLeft(left: map<string, string>, right: map<string, string>, key: string)
    requires key in left && key !in right
    ensures key in left + right && (left + right)[key] == left[key]
  {
  }

  /** A key the right-hand map holds takes its right-hand entry in the union. */
  lemma UnionTakesRight(left: map<string, string>, right: map<string, string>, key: string)
    requires key in right
    ensures key in left + right && (left + right)[key] == right[key]
  {
  }

  /** A key missing from both maps is missing from their union. */
  lemma AbsentFromUnion(left: map<string, string>, right: map<string, string>, key: string)
    requires key !in left && key !in right
    ensures key !in left + right
  {
  }

  /** The timetable section does not name "Home". */
  lemma TimetableTermsLacksHome()
    ensures "Home" !in TimetableTerms
  {
  }

  /** The SuccessMessages section names neither "Home" nor "My Timetable". */
  lemma SuccessMessagesLacksNavigationKeys()
    ensures "Home" !in SuccessMessages && "My Timetable" !in SuccessMessages
  {
  }

  /** The ProfileTerms section names neither "Home" nor "My Timetable". */
  lemma ProfileTermsLacksNavigationKeys()
    ensures "Home" !in ProfileTerms && "My Timetable" !in ProfileTerms
  {
  }

  /** The AboutTerms section names neither "Home" nor "My Timetable". */
  lemma AboutTermsLacksNavigationKeys()
    ensures "Home" !in AboutTerms && "My Timetable" !in AboutTerms
  {
  }

  /** The Contact section names neither "Home" nor "My Timetable". */
  lemma ContactLacksNavigationKeys()
    ensures "Home" !in Contact && "My Timetable" !in Contact
  {
  }

  /** The Motivation section names neither "Home" nor "My Timetable". */
  lemma MotivationLacksNavigationKeys()
    ensures "Home" !in Motivation && "My Timetable" !in Motivation
  {
  }

  /** The venues section names "Home". */
  lemma VenuesNamesHome()
    ensures "Home" in Venues
  {
  }

  /** The timetable section names "My Timetable". */
  lemma TimetableTermsNamesMyTimetable()
    ensures "My Timetable" in TimetableTerms
  {
  }

  /** No section after the venues section names "Home". */
  lemma HomeNotLater()
    ensures "Home" !in TimetableTerms && "Home" !in Trailing
  {
    TimetableTermsLacksHome();
    SuccessMessagesLacksNavigationKeys();
    ProfileTermsLacksNavigationKeys();
    AboutTermsLacksNavigationKeys();
    ContactLacksNavigationKeys();
    MotivationLacksNavigationKeys();
    AbsentFromUnion(SuccessMessages, ProfileTerms, "Home");
    AbsentFromUnion(SuccessMessages + ProfileTerms, AboutTerms, "Home");
    AbsentFromUnion(SuccessMessages + ProfileTerms + AboutTerms, Contact, "Home");
    AbsentFromUnion(SuccessMessages + ProfileTerms + AboutTerms + Contact, Motivation, "Home");
  }

  /** No section after the timetable section names "My Timetable". */
  lemma MyTimetableNotLater()
    ensures "My Timetable" !in Trailing
  {
    SuccessMessagesLacksNavigationKeys();
    ProfileTermsLacksNavigationKeys();
    AboutTermsLacksNavigationKeys();
    ContactLacksNavigationKeys();
    MotivationLacksNavigationKeys();
    AbsentFromUnion(SuccessMessages, ProfileTerms, "My Timetable");
    AbsentFromUnion(SuccessMessages + ProfileTerms, AboutTerms, "My Timetable");
    AbsentFromUnion(SuccessMessages + ProfileTerms + AboutTerms, Contact, "My Timetable");
    AbsentFromUnion(SuccessMessages + ProfileTerms + AboutTerms + Contact, Motivation, "My Timetable");
  }

  /** The table's entry for "Home" is the venues section's. */
  lemma HomeEntry()
    ensures "Home" in ArTable && ArTable["Home"] == Venues["Home"]
  {
    HomeNotLater();
    VenuesNamesHome();
    UnionTakesRight(Leading, Venues, "Home");
    UnionKeepsLeft(Leading + Venues, TimetableTerms, "Home");
    UnionKeepsLeft(Leading + Venues + TimetableTerms, Trailing, "Home");
  }

  /** The two sections give "Home" different texts: "the home page" and "the house". */
  lemma HomeTexts()
    ensures Navigation["Home"] == "الرئيسية" && Venues["Home"] == "المنزل"
  {
  }

  /** So the label the navigation section meant for "Home" is never shown. */
  lemma HomeEntriesDiffer()
    ensures Navigation["Home"] != Venues["Home"]
  {
    HomeTexts();
  }

  /**
   * The navigation label "Home" is shown in Arabic with the venues section's
   * text, "the house", not the navigation section's "the home page".
   */
  lemma HomeTakesLaterEntry(lang: string, storedLang: string)
    requires CurrentLanguage(lang, storedLang) == "ar"
    ensures T("Home", lang, storedLang) == Venues["Home"]
  {
    HomeEntry();
    TranslateMeaning("Home", lang, storedLang);
  }

  /** The table's entry for "My Timetable" is the timetable section's. */
  lemma MyTimetableEntry()
    ensures "My Timetable" in ArTable && ArTable["My Timetable"] == TimetableTerms["My Timetable"]
  {
    MyTimetableNotLater();
    TimetableTermsNamesMyTimetable();
    UnionTakesRight(Leading + Venues, TimetableTerms, "My Timetable");
    UnionKeepsLeft(Leading + Venues + TimetableTerms, Trailing, "My Timetable");
  }

  /** Both sections give "My Timetable" the text "my timetable". */
  lemma MyTimetableTexts()
    ensures Navigation["My Timetable"] == "جدولي" && TimetableTerms["My Timetable"] == "جدولي"
  {
  }

  /** "My Timetable" is named in two sections with the same text. */
  lemma MyTimetableEntriesEqual()
    ensures Navigation["My Timetable"] == TimetableTerms["My Timetable"]
  {
    MyTimetableTexts();
  }

  /** So in Arabic "My Timetable" is shown with the text both sections give it. */
  lemma MyTimetableEntriesAgree(lang: string, storedLang: string)
    requires CurrentLanguage(lang, storedLang) == "ar"
    ensures T("My Timetable", lang, storedLang) == TimetableTerms["My Timetable"]
  {
    MyTimetableEntry();
    TranslateMeaning("My Timetable", lang, storedLang);
  }

  /** The lookup depends on the two language arguments only through the language in force. */
  lemma LookupFollowsLanguage(table: map<string, string>, key: string, lang: string, storedLang: string, lang': string, storedLang': string)
    requires CurrentLanguage(lang, storedLang) == CurrentLanguage(lang', storedLang')
    ensures Lookup(table, key, lang, storedLang) == Lookup(table, key, lang', storedLang')
  {
  }

  /**
   * With no language passed, the stored choice is used as if it had been
   * passed; a passed language overrides whatever is stored.
   */
  lemma StoredLanguageApplies(key: string, lang: string, storedLang: string)
    ensures lang == "" ==> T(key, lang, storedLang) == T(key, storedLang, "")
    ensures lang != "" ==> T(key, lang, storedLang) == T(key, lang, "")
  {
    if lang == "" {
      LookupFollowsLanguage(ArTable, key, lang, storedLang, storedLang, "");
    } else {
      LookupFollowsLanguage(ArTable, key, lang, storedLang, lang, "");
    }
  }
}

/** The literal of `countryCodeMapper.countryMap`
    (lib/newspaper/countryCodeMapper.py:29-661), block by block, with the facts
    about individual blocks that the lookup lemmas rely on. */
module CountryTable {
  import opened CountryBlocks

  /** The blocks of lines 31-49. */
  function GroupsA1(): seq<Group>
  {
    [ Group("ABW", ["Aruba"])
    , Group("AFG", ["Afghanistan", "Afghan"])
    , Group("AGO", ["Angola", "Angolan"])
    , Group("ALB", ["Albania", "Albanian"])
    , Group("AND", ["Andorra"])
    , Group("ARE", ["United Arab Emirates", "Emirati"])
    , Group("ARG", ["Argentina", "Argentine"])
    ]
  }

  /** The blocks of lines 50-66. */
  function GroupsA2(): seq<Group>
  {
    [ Group("ARM", ["Armenia", "Armenian"])
    , Group("ASM", ["American Samoa"])
    , Group("ATG", ["Antigua and Barbuda", "Antigua Barbuda"])
    , Group("AUS", ["Australia", "Australian"])
    , Group("AUT", ["Austria", "Austrian"])
    , Group("AZE", ["Azerbaijan", "Azerbaijani"])
    ]
  }

  /** The blocks whose code starts with A. */
  function GroupsA(): seq<Group>
  {
    GroupsA1() + GroupsA2()
  }

  /** The blocks of lines 67-87. */
  function GroupsB1(): seq<Group>
  {
    [ Group("BDI", ["Burundi", "Burundian"])
    , Group("BEL", ["Belgium", "Belgian"])
    , Group("BEN", ["Benin", "Beninese"])
    , Group("BFA", ["Burkina Faso", "Burkinab\U{00E8}"])
    , Group("BGD", ["Bangladesh", "Bangladeshi"])
    , Group("BGR", ["Bulgaria", "Bulgarian"])
    , Group("BHR", ["Bahrain", "Bahrani"])
    ]
  }

  /** The blocks of lines 88-110. */
  function GroupsB2(): seq<Group>
  {
    [ Group("BHS", ["Bahamas", "Bahamian"])
    , Group("BIH", ["Bosnia and Herzegovina", "Bosnia", "Herzigovina", "Bosnian"])
    , Group("BLR", ["Belarus", "Belorussian"])
    , Group("BLZ", ["Belize", "Belizean"])
    , Group("BMU", ["Bermuda", "Bermudas"])
    , Group("BOL", ["Bolivia", "Bolivian"])
    , Group("BRA", ["Brazil", "Brazilian"])
    ]
  }

  /** The blocks of lines 111-124. */
  function GroupsB3(): seq<Group>
  {
    [ Group("BRB", ["Barbados", "Barbadian"])
    , Group("BRN", ["Brunei Darussalam", "Brunai", "Bruneian"])
    , Group("BTN", ["Bhutan", "Bhutanese"])
    , Group("BWA", ["Botswana", "Batswana", "Tswana"])
    ]
  }

  /** The blocks whose code starts with B. */
  function GroupsB(): seq<Group>
  {
    GroupsB1() + GroupsB2() + GroupsB3()
  }

  /** The blocks of lines 125-145. */
  function GroupsC1(): seq<Group>
  {
    [ Group("CAF", ["Central African Republic"])
    , Group("CAN", ["Canada", "Canadian"])
    , Group("CHE", ["Switzerland", "Swiss"])
    , Group("CHI", ["Channel Islands"])
    , Group("CHL", ["Chile", "Chilean"])
    , Group("CHN", ["China", "Chinese"])
    , Group("CIV", ["C\U{00F4}te d'Ivoire", "Cote d'Ivoire", "Ivory Coast", "Ivorian"])
    ]
  }

  /** The blocks of lines 146-166. */
  function GroupsC2(): seq<Group>
  {
    [ Group("CMR", ["Cameroon", "Cameroonian"])
    , Group("COG", ["Congo", "Congolese"])
    , Group("COL", ["Colombia", "Colombian"])
    , Group("COM", ["Comoros"])
    , Group("CPV", ["Cabo Verde", "Cape Verde", "Cape Verdeans"])
    , Group("CRI", ["Costa Rica", "Costa Ricans"])
    , Group("CUB", ["Cuba", "Cuban"])
    ]
  }

  /** The blocks of lines 167-176. */
  function GroupsC3(): seq<Group>
  {
    [ Group("CUW", ["Cura\U{00E7}ao", "Curacao"])
    , Group("CYM", ["Cayman Islands"])
    , Group("CYP", ["Cyprus"])
    , Group("CZE", ["Czech Republic", "Czech"])
    ]
  }

  /** The blocks whose code starts with C. */
  function GroupsC(): seq<Group>
  {
    GroupsC1() + GroupsC2() + GroupsC3()
  }

  /** The blocks of lines 177-194. */
  function GroupsD(): seq<Group>
  {
    [ Group("DEU", ["Germany", "German"])
    , Group("DJI", ["Djibouti"])
    , Group("DMA", ["Dominica"])
    , Group("DNK", ["Denmark", "Dane", "Danish"])
    , Group("DOM", ["Dominican Republic", "Dominican", "Dominica"])
    , Group("DZA", ["Algeria", "Algerian"])
    ]
  }

  /** The blocks of lines 195-212. */
  function GroupsE(): seq<Group>
  {
    [ Group("ECU", ["Ecuador", "Ecuadorean"])
    , Group("EGY", ["Egypt", "Egyptian"])
    , Group("ERI", ["Eritrea", "Eritrean"])
    , Group("ESP", ["Spain", "Spanish"])
    , Group("EST", ["Estonia", "Estonian"])
    , Group("ETH", ["Ethiopia", "Ethiopian"])
    ]
  }

  /** The blocks of lines 213-226. */
  function GroupsF(): seq<Group>
  {
    [ Group("FIN", ["Finland", "Finn"])
    , Group("FJI", ["Fiji", "Fijians"])
    , Group("FRA", ["France", "French"])
    , Group("FRO", ["Faeroe Islands"])
    , Group("FSM", ["Micronesia", "Micronesian"])
    ]
  }

  /** The blocks of lines 227-248. */
  function GroupsG1(): seq<Group>
  {
    [ Group("GAB", ["Gabon", "Gabonese"])
    , Group("GBR", ["United Kingdom", "England", "Britain", "British"])
    , Group("GEO", ["Georgia", "Georgian"])
    , Group("GHA", ["Ghana", "Ghanaian"])
    , Group("GIN", ["Guinea", "Guinean"])
    , Group("GMB", ["Gambia", "Gambian"])
    , Group("GNB", ["Guinea-Bissau"])
    ]
  }

  /** The blocks of lines 249-267. */
  function GroupsG2(): seq<Group>
  {
    [ Group("GNQ", ["Equatorial Guinea"])
    , Group("GRC", ["Greece", "Greek"])
    , Group("GRD", ["Grenada", "Grenadian"])
    , Group("GRL", ["Greenland", "Greenlandic"])
    , Group("GTM", ["Guatemala", "Guatemalan"])
    , Group("GUM", ["Guam"])
    , Group("GUY", ["Guyana", "Guyanese"])
    ]
  }

  /** The blocks whose code starts with G. */
  function GroupsG(): seq<Group>
  {
    GroupsG1() + GroupsG2()
  }

  /** The blocks of lines 268-281. */
  function GroupsH(): seq<Group>
  {
    [ Group("HKG", ["Hong Kong"])
    , Group("HND", ["Honduras", "Honduran"])
    , Group("HRV", ["Croatia", "Croatian"])
    , Group("HTI", ["Haiti", "Haitian"])
    , Group("HUN", ["Hungary", "Hungarian"])
    ]
  }

  /** The blocks of lines 282-302. */
  function GroupsI1(): seq<Group>
  {
    [ Group("IDN", ["Indonesia", "Indonesian"])
    , Group("IMN", ["Isle of Man"])
    , Group("IND", ["India", "Indian"])
    , Group("IRL", ["Ireland", "Irish", "Irishman"])
    , Group("IRN", ["Iran", "Iranian"])
    , Group("IRQ", ["Iraq", "Iraqi"])
    , Group("ISL", ["Iceland", "Icelanders"])
    ]
  }

  /** The blocks of lines 303-308. */
  function GroupsI2(): seq<Group>
  {
    [ Group("ISR", ["Israel", "Israeli"])
    , Group("ITA", ["Italy", "Italian"])
    ]
  }

  /** The blocks whose code starts with I. */
  function GroupsI(): seq<Group>
  {
    GroupsI1() + GroupsI2()
  }

  /** The blocks of lines 309-317. */
  function GroupsJ(): seq<Group>
  {
    [ Group("JAM", ["Jamaica", "Jamaican"])
    , Group("JOR", ["Jordan", "Jordanian"])
    , Group("JPN", ["Japan", "Japanese"])
    ]
  }

  /** The blocks of lines 318-338. */
  function GroupsK1(): seq<Group>
  {
    [ Group("KAZ", ["Kazakhstan", "Kazakh"])
    , Group("KEN", ["Kenya", "Kenyan"])
    , Group("KGZ", ["Kyrgyz Republic"])
    , Group("KHM", ["Cambodia", "Cambodian"])
    , Group("KIR", ["Kiribati"])
    , Group("KNA", ["St. Kitts and Nevis", "Kitts Nevis"])
    , Group("KOR", ["Korea Rep.", "Korea Republic", "South Korea", "South Korean"])
    ]
  }

  /** The blocks of lines 339-341. */
  function GroupsK2(): seq<Group>
  {
    [ Group("KWT", ["Kuwait", "Kuwaiti"])
    ]
  }

  /** The blocks whose code starts with K. */
  function GroupsK(): seq<Group>
  {
    GroupsK1() + GroupsK2()
  }

  /** The blocks of lines 342-365. */
  function GroupsL1(): seq<Group>
  {
    [ Group("LAO", ["Lao PDR", "Laos", "Laotian"])
    , Group("LBN", ["Lebanon", "Lebanese"])
    , Group("LBR", ["Liberia", "Liberian"])
    , Group("LBY", ["Libya", "Libyan"])
    , Group("LCA", ["St. Lucia", "Lucia"])
    , Group("LIE", ["Liechtenstein", "Liechtensteiner"])
    , Group("LKA", ["Sri Lanka", "Sri Lankan", "Lanka", "Lankan"])
    ]
  }

  /** The blocks of lines 366-377. */
  function GroupsL2(): seq<Group>
  {
    [ Group("LSO", ["Lesotho", "Sotho"])
    , Group("LTU", ["Lithuania", "Lithuanian"])
    , Group("LUX", ["Luxembourg", "Luxembourger"])
    , Group("LVA", ["Latvia", "Latvian"])
    ]
  }

  /** The blocks whose code starts with L. */
  function GroupsL(): seq<Group>
  {
    GroupsL1() + GroupsL2()
  }

  /** The blocks of lines 378-396. */
  function GroupsM1(): seq<Group>
  {
    [ Group("MAC", ["Macao SAR", "Macao"])
    , Group("MAF", ["St. Martin (French part)"])
    , Group("MAR", ["Morocco", "Moroccan"])
    , Group("MCO", ["Monaco"])
    , Group("MDA", ["Moldova", "Moldovan"])
    , Group("MDG", ["Madagascar", "Madagascan"])
    , Group("MDV", ["Maldives", "Maldivian"])
    ]
  }

  /** The blocks of lines 397-415. */
  function GroupsM2(): seq<Group>
  {
    [ Group("MEX", ["Mexico", "Mexican"])
    , Group("MHL", ["Marshall Islands"])
    , Group("MKD", ["Macedonia", "Macedonian"])
    , Group("MLI", ["Mali", "Malian"])
    , Group("MLT", ["Malta", "Maltese"])
    , Group("MMR", ["Myanmar"])
    , Group("MNE", ["Montenegro", "Montenegrin"])
    ]
  }

  /** The blocks of lines 416-436. */
  function GroupsM3(): seq<Group>
  {
    [ Group("MNG", ["Mongolia", "Mongolian"])
    , Group("MNP", ["Northern Mariana Islands", "Mariana Islands"])
    , Group("MOZ", ["Mozambique", "Mozambican"])
    , Group("MRT", ["Mauritania", "Mauritanian"])
    , Group("MUS", ["Mauritius", "Mauritian"])
    , Group("MWI", ["Malawi", "Malawian"])
    , Group("MYS", ["Malaysia", "Malaysian"])
    ]
  }

  /** The blocks whose code starts with M. */
  function GroupsM(): seq<Group>
  {
    GroupsM1() + GroupsM2() + GroupsM3()
  }

  /** The blocks of lines 437-458. */
  function GroupsN1(): seq<Group>
  {
    [ Group("NAM", ["Namibia", "Namibian"])
    , Group("NCL", ["New Caledonia", "New Caledonian"])
    , Group("NER", ["Niger", "Nigerien"])
    , Group("NGA", ["Nigeria", "Nigerian"])
    , Group("NIC", ["Nicaragua", "Nicaraguan"])
    , Group("NLD", ["Netherlands", "Holland", "Dutch"])
    , Group("NOR", ["Norway", "Norwegian"])
    ]
  }

  /** The blocks of lines 459-466. */
  function GroupsN2(): seq<Group>
  {
    [ Group("NPL", ["Nepal", "Nepalese"])
    , Group("NZL", ["New Zealand", "New Zealanders", "Zealand", "Zealanders"])
    ]
  }

  /** The blocks whose code starts with N. */
  function GroupsN(): seq<Group>
  {
    GroupsN1() + GroupsN2()
  }

  /** The blocks of lines 467-469. */
  function GroupsO(): seq<Group>
  {
    [ Group("OMN", ["Oman", "Omani"])
    ]
  }

  /** The blocks of lines 470-490. */
  function GroupsP1(): seq<Group>
  {
    [ Group("PAK", ["Pakistan", "Pakistani"])
    , Group("PAN", ["Panama", "Panamanian"])
    , Group("PER", ["Peru", "Peruvian"])
    , Group("PHL", ["Philippines", "Filipino"])
    , Group("PLW", ["Palau", "Palauans"])
    , Group("PNG", ["Papua New Guinea", "Papuan"])
    , Group("POL", ["Poland", "Polish"])
    ]
  }

  /** The blocks of lines 491-506. */
  function GroupsP2(): seq<Group>
  {
    [ Group("PRI", ["Puerto Rico", "Puerto Ricans"])
    , Group("PRK", ["North Korea", "North Koreans"])
    , Group("PRT", ["Portugal", "Portuguese"])
    , Group("PRY", ["Paraguay", "Paraguayan"])
    , Group("PSE", ["West Bank and Gaza"])
    , Group("PYF", ["French Polynesia"])
    ]
  }

  /** The blocks whose code starts with P. */
  function GroupsP(): seq<Group>
  {
    GroupsP1() + GroupsP2()
  }

  /** The blocks of lines 507-509. */
  function GroupsQ(): seq<Group>
  {
    [ Group("QAT", ["Qatar", "Qatari"])
    ]
  }

  /** The blocks of lines 510-518. */
  function GroupsR(): seq<Group>
  {
    [ Group("ROU", ["Romania", "Romanian"])
    , Group("RUS", ["Russian Federation", "Russia", "Russian"])
    , Group("RWA", ["Rwanda"])
    ]
  }

  /** The blocks of lines 519-538. */
  function GroupsS1(): seq<Group>
  {
    [ Group("SAU", ["Saudi Arabia", "Saudi"])
    , Group("SDN", ["Sudan", "Sudanese"])
    , Group("SEN", ["Senegal", "Senegalese"])
    , Group("SGP", ["Singapore", "Singaporean"])
    , Group("SLB", ["Solomon Islands"])
    , Group("SLE", ["Sierra Leone"])
    , Group("SLV", ["El Salvador", "Salvador", "Salvadorean"])
    ]
  }

  /** The blocks of lines 539-561. */
  function GroupsS2(): seq<Group>
  {
    [ Group("SMR", ["San Marino"])
    , Group("SOM", ["Somalia", "Somali"])
    , Group("SRB", ["Serbia", "Serbian"])
    , Group("SSD", ["South Sudan", "South Sudanese"])
    , Group("STP", ["S\U{00E3}o Tom\U{00E9} and Principe", "Sao Tome and Principe", "Tom\U{00E9} Principe", "Tome Principe"])
    , Group("SUR", ["Suriname", "Surinamese"])
    , Group("SVK", ["Slovak Republic", "Slovakia", "Slovak"])
    ]
  }

  /** The blocks of lines 562-578. */
  function GroupsS3(): seq<Group>
  {
    [ Group("SVN", ["Slovenia", "Slovenian"])
    , Group("SWE", ["Sweden", "Swede"])
    , Group("SWZ", ["Swaziland", "Swazi"])
    , Group("SXM", ["Sint Maarten (Dutch part)"])
    , Group("SYC", ["Seychelles"])
    , Group("SYR", ["Syrian Arab Republic", "Syria", "Syrian"])
    ]
  }

  /** The blocks whose code starts with S. */
  function GroupsS(): seq<Group>
  {
    GroupsS1() + GroupsS2() + GroupsS3()
  }

  /** The blocks of lines 579-597. */
  function GroupsT1(): seq<Group>
  {
    [ Group("TCA", ["Turks and Caicos Islands", "Turks Caicos Islands"])
    , Group("TCD", ["Chad", "Chadian"])
    , Group("TGO", ["Togo", "Togolese"])
    , Group("THA", ["Thailand", "Thai"])
    , Group("TJK", ["Tajikistan", "Tadzhik"])
    , Group("TKM", ["Turkmenistan"])
    , Group("TLS", ["Timor-Leste"])
    ]
  }

  /** The blocks of lines 598-619. */
  function GroupsT2(): seq<Group>
  {
    [ Group("TON", ["Tonga", "Tongolese"])
    , Group("TTO", ["Trinidad and Tobago", "Trinidadian and Tobagonian", "Trinidad Tobago", "Trinidadian Tobagonian"])
    , Group("TUN", ["Tunisia", "Tunisian"])
    , Group("TUR", ["Turkey", "Turkish"])
    , Group("TUV", ["Tuvalu"])
    , Group("TWN", ["Taiwan", "Taiwanese"])
    , Group("TZA", ["Tanzania", "Tanzanian"])
    ]
  }

  /** The blocks whose code starts with T. */
  function GroupsT(): seq<Group>
  {
    GroupsT1() + GroupsT2()
  }

  /** The blocks of lines 620-635. */
  function GroupsU(): seq<Group>
  {
    [ Group("UGA", ["Uganda", "Ugandan"])
    , Group("UKR", ["Ukraine", "Ukrainian"])
    , Group("URY", ["Uruguay", "Uruguayan"])
    , Group("USA", ["United States", "American", "US"])
    , Group("UZB", ["Uzbekistan", "Uzbek"])
    ]
  }

  /** The blocks of lines 636-649. */
  function GroupsV(): seq<Group>
  {
    [ Group("VCT", ["St. Vincent and the Grenadines", "Vincent Grenadines"])
    , Group("VEN", ["Venezuela", "Venezuelan"])
    , Group("VIR", ["Virgin Islands (U.S.)", "Virgin Islands"])
    , Group("VNM", ["Vietnam", "Vietnamese"])
    , Group("VUT", ["Vanuatu"])
    ]
  }

  /** The blocks of lines 650-651. */
  function GroupsW(): seq<Group>
  {
    [ Group("WSM", ["Samoa"])
    ]
  }

  /** The blocks of lines 652-653. */
  function GroupsY(): seq<Group>
  {
    [ Group("YEM", ["Yemen"])
    ]
  }

  /** The blocks of lines 654-661. */
  function GroupsZ(): seq<Group>
  {
    [ Group("ZAF", ["South Africa"])
    , Group("ZMB", ["Zambia", "Zambian"])
    , Group("ZWE", ["Zimbabwe", "Zimbabwean"])
    ]
  }

  /** The whole literal: the blocks before D, the D blocks, and the rest. */
  function Groups(): seq<Group>
  {
    GroupsAtoC() + GroupsD() + GroupsEtoZ()
  }

  function GroupsAtoC(): seq<Group> { GroupsA() + GroupsB() + GroupsC() }

  /** The blocks after D: those before U, the U blocks, and the rest. */
  function GroupsEtoZ(): seq<Group>
  {
    GroupsEtoT() + GroupsU() + GroupsVtoZ()
  }

  function GroupsEtoK(): seq<Group> { GroupsE() + GroupsF() + GroupsG() + GroupsH() + GroupsI() + GroupsJ() + GroupsK() }

  function GroupsLtoT(): seq<Group> { GroupsL() + GroupsM() + GroupsN() + GroupsO() + GroupsP() + GroupsQ() + GroupsR() + GroupsS() + GroupsT() }

  function GroupsEtoT(): seq<Group> { GroupsEtoK() + GroupsLtoT() }

  function GroupsVtoZ(): seq<Group> { GroupsV() + GroupsW() + GroupsY() + GroupsZ() }

  // ----- no block outside the D blocks has a code starting with D -----

  lemma CodesStartWithA1()
    ensures forall g | g in GroupsA1() :: g.code[0] == 'A'
  {
  }

  lemma CodesStartWithA2()
    ensures forall g | g in GroupsA2() :: g.code[0] == 'A'
  {
  }

  lemma CodesStartWithA()
    ensures forall g | g in GroupsA() :: g.code[0] == 'A'
  {
    CodesStartWithA1();
    CodesStartWithA2();
  }

  lemma CodesStartWithB1()
    ensures forall g | g in GroupsB1() :: g.code[0] == 'B'
  {
  }

  lemma CodesStartWithB2()
    ensures forall g | g in GroupsB2() :: g.code[0] == 'B'
  {
  }

  lemma CodesStartWithB3()
    ensures forall g | g in GroupsB3() :: g.code[0] == 'B'
  {
  }

  lemma CodesStartWithB()
    ensures forall g | g in GroupsB() :: g.code[0] == 'B'
  {
    CodesStartWithB1();
    CodesStartWithB2();
    CodesStartWithB3();
  }

  lemma CodesStartWithC1()
    ensures forall g | g in GroupsC1() :: g.code[0] == 'C'
  {
  }

  lemma CodesStartWithC2()
    ensures forall g | g in GroupsC2() :: g.code[0] == 'C'
  {
  }

  lemma CodesStartWithC3()
    ensures forall g | g in GroupsC3() :: g.code[0] == 'C'
  {
  }

  lemma CodesStartWithC()
    ensures forall g | g in GroupsC() :: g.code[0] == 'C'
  {
    CodesStartWithC1();
    CodesStartWithC2();
    CodesStartWithC3();
  }

  lemma CodesStartWithE()
    ensures forall g | g in GroupsE() :: g.code[0] == 'E'
  {
  }

  lemma CodesStartWithF()
    ensures forall g | g in GroupsF() :: g.code[0] == 'F'
  {
  }

  lemma CodesStartWithG1()
    ensures forall g | g in GroupsG1() :: g.code[0] == 'G'
  {
  }

  lemma CodesStartWithG2()
    ensures forall g | g in GroupsG2() :: g.code[0] == 'G'
  {
  }

  lemma CodesStartWithG()
    ensures forall g | g in GroupsG() :: g.code[0] == 'G'
  {
    CodesStartWithG1();
    CodesStartWithG2();
  }

  lemma CodesStartWithH()
    ensures forall g | g in GroupsH() :: g.code[0] == 'H'
  {
  }

  lemma CodesStartWithI1()
    ensures forall g | g in GroupsI1() :: g.code[0] == 'I'
  {
  }

  lemma CodesStartWithI2()
    ensures forall g | g in GroupsI2() :: g.code[0] == 'I'
  {
  }

  lemma CodesStartWithI()
    ensures forall g | g in GroupsI() :: g.code[0] == 'I'
  {
    CodesStartWithI1();
    CodesStartWithI2();
  }

  lemma CodesStartWithJ()
    ensures forall g | g in GroupsJ() :: g.code[0] == 'J'
  {
  }

  lemma CodesStartWithK1()
    ensures forall g | g in GroupsK1() :: g.code[0] == 'K'
  {
  }

  lemma CodesStartWithK2()
    ensures forall g | g in GroupsK2() :: g.code[0] == 'K'
  {
  }

  lemma CodesStartWithK()
    ensures forall g | g in GroupsK() :: g.code[0] == 'K'
  {
    CodesStartWithK1();
    CodesStartWithK2();
  }

  lemma CodesStartWithL1()
    ensures forall g | g in GroupsL1() :: g.code[0] == 'L'
  {
  }

  lemma CodesStartWithL2()
    ensures forall g | g in GroupsL2() :: g.code[0] == 'L'
  {
  }

  lemma CodesStartWithL()
    ensures forall g | g in GroupsL() :: g.code[0] == 'L'
  {
    CodesStartWithL1();
    CodesStartWithL2();
  }

  lemma CodesStartWithM1()
    ensures forall g | g in GroupsM1() :: g.code[0] == 'M'
  {
  }

  lemma CodesStartWithM2()
    ensures forall g | g in GroupsM2() :: g.code[0] == 'M'
  {
  }

  lemma CodesStartWithM3()
    ensures forall g | g in GroupsM3() :: g.code[0] == 'M'
  {
  }

  lemma CodesStartWithM()
    ensures forall g | g in GroupsM() :: g.code[0] == 'M'
  {
    CodesStartWithM1();
    CodesStartWithM2();
    CodesStartWithM3();
  }

  lemma CodesStartWithN1()
    ensures forall g | g in GroupsN1() :: g.code[0] == 'N'
  {
  }

  lemma CodesStartWithN2()
    ensures forall g | g in GroupsN2() :: g.code[0] == 'N'
  {
  }

  lemma CodesStartWithN()
    ensures forall g | g in GroupsN() :: g.code[0] == 'N'
  {
    CodesStartWithN1();
    CodesStartWithN2();
  }

  lemma CodesStartWithO()
    ensures forall g | g in GroupsO() :: g.code[0] == 'O'
  {
  }

  lemma CodesStartWithP1()
    ensures forall g | g in GroupsP1() :: g.code[0] == 'P'
  {
  }

  lemma CodesStartWithP2()
    ensures forall g | g in GroupsP2() :: g.code[0] == 'P'
  {
  }

  lemma CodesStartWithP()
    ensures forall g | g in GroupsP() :: g.code[0] == 'P'
  {
    CodesStartWithP1();
    CodesStartWithP2();
  }

  lemma CodesStartWithQ()
    ensures forall g | g in GroupsQ() :: g.code[0] == 'Q'
  {
  }

  lemma CodesStartWithR()
    ensures forall g | g in GroupsR() :: g.code[0] == 'R'
  {
  }

  lemma CodesStartWithS1()
    ensures forall g | g in GroupsS1() :: g.code[0] == 'S'
  {
  }

  lemma CodesStartWithS2()
    ensures forall g | g in GroupsS2() :: g.code[0] == 'S'
  {
  }

  lemma CodesStartWithS3()
    ensures forall g | g in GroupsS3() :: g.code[0] == 'S'
  {
  }

  lemma CodesStartWithS()
    ensures forall g | g in GroupsS() :: g.code[0] == 'S'
  {
    CodesStartWithS1();
    CodesStartWithS2();
    CodesStartWithS3();
  }

  lemma CodesStartWithT1()
    ensures forall g | g in GroupsT1() :: g.code[0] == 'T'
  {
  }

  lemma CodesStartWithT2()
    ensures forall g | g in GroupsT2() :: g.code[0] == 'T'
  {
  }

  lemma CodesStartWithT()
    ensures forall g | g in GroupsT() :: g.code[0] == 'T'
  {
    CodesStartWithT1();
    CodesStartWithT2();
  }

  lemma CodesStartWithU()
    ensures forall g | g in GroupsU() :: g.code[0] == 'U'
  {
  }

  lemma CodesStartWithV()
    ensures forall g | g in GroupsV() :: g.code[0] == 'V'
  {
  }

  lemma CodesStartWithW()
    ensures forall g | g in GroupsW() :: g.code[0] == 'W'
  {
  }

  lemma CodesStartWithY()
    ensures forall g | g in GroupsY() :: g.code[0] == 'Y'
  {
  }

  lemma CodesStartWithZ()
    ensures forall g | g in GroupsZ() :: g.code[0] == 'Z'
  {
  }

  lemma NoDCodeBeforeD()
    ensures forall g | g in GroupsAtoC() :: g.code[0] != 'D'
  {
    CodesStartWithA();
    CodesStartWithB();
    CodesStartWithC();
  }

  lemma NoDCodeEtoK()
    ensures forall g | g in GroupsEtoK() :: g.code[0] != 'D'
  {
    CodesStartWithE();
    CodesStartWithF();
    CodesStartWithG();
    CodesStartWithH();
    CodesStartWithI();
    CodesStartWithJ();
    CodesStartWithK();
  }

  lemma NoDCodeLtoT()
    ensures forall g | g in GroupsLtoT() :: g.code[0] != 'D'
  {
    CodesStartWithL();
    CodesStartWithM();
    CodesStartWithN();
    CodesStartWithO();
    CodesStartWithP();
    CodesStartWithQ();
    CodesStartWithR();
    CodesStartWithS();
    CodesStartWithT();
  }

  lemma NoDCodeVtoZ()
    ensures forall g | g in GroupsVtoZ() :: g.code[0] != 'D'
  {
    CodesStartWithV();
    CodesStartWithW();
    CodesStartWithY();
    CodesStartWithZ();
  }

  lemma NoDCodeAfterD()
    ensures forall g | g in GroupsEtoZ() :: g.code[0] != 'D'
  {
    NoDCodeEtoK();
    NoDCodeLtoT();
    CodesStartWithU();
    NoDCodeVtoZ();
  }

  /** No block after the D blocks writes "DMA". */
  lemma DMAAbsentAfterD()
    ensures forall g | g in GroupsEtoZ() :: !Mentions(g, "DMA")
  {
    NoDCodeAfterD();
    ThreeCharacterKeyIsCode(GroupsEtoZ(), "DMA");
  }

  /** Among the D blocks, DMA (the third) is the last to write "DMA". */
  lemma DMALastWrittenInD()
    ensures LastWriter(GroupsD(), 2, "DMA") && GroupsD()[2].code == "DMA"
  {
  }

  /** Among the D blocks, DOM (the fifth) is the last to write "Dominica". */
  lemma DominicaLastWrittenInD()
    ensures LastWriter(GroupsD(), 4, "Dominica") && GroupsD()[4].code == "DOM"
  {
  }

  /** Among the U blocks, USA (the fourth) is the last to write "US". */
  lemma USLastWrittenInU()
    ensures LastWriter(GroupsU(), 3, "US") && GroupsU()[3].code == "USA"
  {
  }

  /** The only key whose last writer among the D blocks is DMA is "DMA" itself:
      its synonym "Dominica" is written again by DOM. */
  lemma LastWrittenByDMA(i: int, k: string)
    requires LastWriter(GroupsD(), i, k) && GroupsD()[i].code == "DMA"
    ensures k == "DMA"
  {
    assert i == 2;
    assert k in GroupsD()[2].synonyms ==> Mentions(GroupsD()[4], k);
  }

  // ----- blocks that do not write "Dominica" or "US" -----

  lemma DominicaAbsentE()
    ensures forall g | g in GroupsE() :: !Mentions(g, "Dominica")
  {
  }

  lemma DominicaAbsentF()
    ensures forall g | g in GroupsF() :: !Mentions(g, "Dominica")
  {
  }

  lemma DominicaAbsentG1()
    ensures forall g | g in GroupsG1() :: !Mentions(g, "Dominica")
  {
  }

  lemma DominicaAbsentG2()
    ensures forall g | g in GroupsG2() :: !Mentions(g, "Dominica")
  {
  }

  lemma DominicaAbsentG()
    ensures forall g | g in GroupsG() :: !Mentions(g, "Dominica")
  {
    DominicaAbsentG1();
    DominicaAbsentG2();
  }

  lemma DominicaAbsentH()
    ensures forall g | g in GroupsH() :: !Mentions(g, "Dominica")
  {
  }

  lemma DominicaAbsentI1()
    ensures forall g | g in GroupsI1() :: !Mentions(g, "Dominica")
  {
  }

  lemma DominicaAbsentI2()
    ensures forall g | g in GroupsI2() :: !Mentions(g, "Dominica")
  {
  }

  lemma DominicaAbsentI()
    ensures forall g | g in GroupsI() :: !Mentions(g, "Dominica")
  {
    DominicaAbsentI1();
    DominicaAbsentI2();
  }

  lemma DominicaAbsentJ()
    ensures forall g | g in GroupsJ() :: !Mentions(g, "Dominica")
  {
  }

  lemma DominicaAbsentK1()
    ensures forall g | g in GroupsK1() :: !Mentions(g, "Dominica")
  {
  }

  lemma DominicaAbsentK2()
    ensures forall g | g in GroupsK2() :: !Mentions(g, "Dominica")
  {
  }

  lemma DominicaAbsentK()
    ensures forall g | g in GroupsK() :: !Mentions(g, "Dominica")
  {
    DominicaAbsentK1();
    DominicaAbsentK2();
  }

  lemma DominicaAbsentL1()
    ensures forall g | g in GroupsL1() :: !Mentions(g, "Dominica")
  {
  }

  lemma DominicaAbsentL2()
    ensures forall g | g in GroupsL2() :: !Mentions(g, "Dominica")
  {
  }

  lemma DominicaAbsentL()
    ensures forall g | g in GroupsL() :: !Mentions(g, "Dominica")
  {
    DominicaAbsentL1();
    DominicaAbsentL2();
  }

  lemma DominicaAbsentM1()
    ensures forall g | g in GroupsM1() :: !Mentions(g, "Dominica")
  {
  }

  lemma DominicaAbsentM2()
    ensures forall g | g in GroupsM2() :: !Mentions(g, "Dominica")
  {
  }

  lemma DominicaAbsentM3()
    ensures forall g | g in GroupsM3() :: !Mentions(g, "Dominica")
  {
  }

  lemma DominicaAbsentM()
    ensures forall g | g in GroupsM() :: !Mentions(g, "Dominica")
  {
    DominicaAbsentM1();
    DominicaAbsentM2();
    DominicaAbsentM3();
  }

  lemma DominicaAbsentN1()
    ensures forall g | g in GroupsN1() :: !Mentions(g, "Dominica")
  {
  }

  lemma DominicaAbsentN2()
    ensures forall g | g in GroupsN2() :: !Mentions(g, "Dominica")
  {
  }

  lemma DominicaAbsentN()
    ensures forall g | g in GroupsN() :: !Mentions(g, "Dominica")
  {
    DominicaAbsentN1();
    DominicaAbsentN2();
  }

  lemma DominicaAbsentO()
    ensures forall g | g in GroupsO() :: !Mentions(g, "Dominica")
  {
  }

  lemma DominicaAbsentP1()
    ensures forall g | g in GroupsP1() :: !Mentions(g, "Dominica")
  {
  }

  lemma DominicaAbsentP2()
    ensures forall g | g in GroupsP2() :: !Mentions(g, "Dominica")
  {
  }

  lemma DominicaAbsentP()
    ensures forall g | g in GroupsP() :: !Mentions(g, "Dominica")
  {
    DominicaAbsentP1();
    DominicaAbsentP2();
  }

  lemma DominicaAbsentQ()
    ensures forall g | g in GroupsQ() :: !Mentions(g, "Dominica")
  {
  }

  lemma DominicaAbsentR()
    ensures forall g | g in GroupsR() :: !Mentions(g, "Dominica")
  {
  }

  lemma DominicaAbsentS1()
    ensures forall g | g in GroupsS1() :: !Mentions(g, "Dominica")
  {
  }

  lemma DominicaAbsentS2()
    ensures forall g | g in GroupsS2() :: !Mentions(g, "Dominica")
  {
  }

  lemma DominicaAbsentS3()
    ensures forall g | g in GroupsS3() :: !Mentions(g, "Dominica")
  {
  }

  lemma DominicaAbsentS()
    ensures forall g | g in GroupsS() :: !Mentions(g, "Dominica")
  {
    DominicaAbsentS1();
    DominicaAbsentS2();
    DominicaAbsentS3();
  }

  lemma DominicaAbsentT1()
    ensures forall g | g in GroupsT1() :: !Mentions(g, "Dominica")
  {
  }

  lemma DominicaAbsentT2()
    ensures forall g | g in GroupsT2() :: !Mentions(g, "Dominica")
  {
  }

  lemma DominicaAbsentT()
    ensures forall g | g in GroupsT() :: !Mentions(g, "Dominica")
  {
    DominicaAbsentT1();
    DominicaAbsentT2();
  }

  lemma DominicaAbsentU()
    ensures forall g | g in GroupsU() :: !Mentions(g, "Dominica")
  {
  }

  lemma DominicaAbsentV()
    ensures forall g | g in GroupsV() :: !Mentions(g, "Dominica")
  {
  }

  lemma DominicaAbsentW()
    ensures forall g | g in GroupsW() :: !Mentions(g, "Dominica")
  {
  }

  lemma DominicaAbsentY()
    ensures forall g | g in GroupsY() :: !Mentions(g, "Dominica")
  {
  }

  lemma DominicaAbsentZ()
    ensures forall g | g in GroupsZ() :: !Mentions(g, "Dominica")
  {
  }

  lemma DominicaAbsentEtoK()
    ensures forall g | g in GroupsEtoK() :: !Mentions(g, "Dominica")
  {
    DominicaAbsentE();
    DominicaAbsentF();
    DominicaAbsentG();
    DominicaAbsentH();
    DominicaAbsentI();
    DominicaAbsentJ();
    DominicaAbsentK();
  }

  lemma DominicaAbsentLtoT()
    ensures forall g | g in GroupsLtoT() :: !Mentions(g, "Dominica")
  {
    DominicaAbsentL();
    DominicaAbsentM();
    DominicaAbsentN();
    DominicaAbsentO();
    DominicaAbsentP();
    DominicaAbsentQ();
    DominicaAbsentR();
    DominicaAbsentS();
    DominicaAbsentT();
  }

  lemma DominicaAbsentVtoZ()
    ensures forall g | g in GroupsVtoZ() :: !Mentions(g, "Dominica")
  {
    DominicaAbsentV();
    DominicaAbsentW();
    DominicaAbsentY();
    DominicaAbsentZ();
  }

  lemma DominicaAbsentAfterD()
    ensures forall g | g in GroupsEtoZ() :: !Mentions(g, "Dominica")
  {
    DominicaAbsentEtoK();
    DominicaAbsentLtoT();
    DominicaAbsentU();
    DominicaAbsentVtoZ();
  }

  lemma USAbsentV()
    ensures forall g | g in GroupsV() :: !Mentions(g, "US")
  {
  }

  lemma USAbsentW()
    ensures forall g | g in GroupsW() :: !Mentions(g, "US")
  {
  }

  lemma USAbsentY()
    ensures forall g | g in GroupsY() :: !Mentions(g, "US")
  {
  }

  lemma USAbsentZ()
    ensures forall g | g in GroupsZ() :: !Mentions(g, "US")
  {
  }

  lemma USAbsentAfterU()
    ensures forall g | g in GroupsVtoZ() :: !Mentions(g, "US")
  {
    USAbsentV();
    USAbsentW();
    USAbsentY();
    USAbsentZ();
  }
}

/** The literal categories of `dataClassMapper.__init__` (lib/dataContainer.py:541-746),
    in the order `_map` tests them (lib/dataContainer.py:824-872). */
module DataContainerTables {
  import opened DataContainer

  /** `development` (line 542). */
  function Development(): seq<(string, string)>
  {
    [ ("IC.FRM.CORR.ZS", "Informal payments to public officials (% of firms)")
    , ("IE.PPI.ENGY.CD", "Investment in energy with private participation (current US$)")
    , ("IE.PPI.TELE.CD", "Investment in telecoms with private participation (current US$)")
    , ("IE.PPI.TRAN.CD", "Investment in transport with private participation (current US$)")
    , ("IE.PPI.WATR.CD", "Investment in water and sanitation with private participation (current US$)")
    , ("SP.DYN.LE00.FE.IN", "Life expectancy at birth, female (years)")
    , ("SP.DYN.LE00.MA.IN", "Life expectancy at birth, male (years)")
    , ("SE.ADT.LITR.ZS", "Literacy rate, adult total (% of people ages 15 and above)")
    , ("SE.ADT.1524.LT.FE.ZS", "Literacy rate, youth female (% of females ages 15-24)")
    , ("SE.ADT.1524.LT.MA.ZS", "Literacy rate, youth male (% of males ages 15-24)")
    , ("SE.ADT.1524.LT.ZS", "Literacy rate, youth total (% of people ages 15-24)")
    , ("IT.CEL.SETS.P2", "Mobile cellular subscriptions (per 100 people)")
    , ("SI.POV.GAP2", "Poverty gap at $2 a day (PPP) (%)")
    , ("SI.POV.NAGP", "Poverty gap at national poverty lines (%)")
    , ("SI.POV.DDAY", "Poverty headcount ratio at $1.25 a day (PPP) (% of population)")
    , ("SG.GEN.PARL.ZS", "Proportion of seats held by women in national parliaments (%)")
    ]
  }

  /** `ecology` (line 560). */
  function Ecology(): seq<(string, string)>
  {
    [ ("EN.FSH.THRD.NO", "Fish species, threatened")
    , ("AG.LND.FRST.ZS", "Forest area (% of land area)")
    , ("AG.LND.FRST.K2", "Forest area (sq. km)")
    , ("EN.MAM.THRD.NO", "Mammal species, threatened")
    , ("ER.MRN.PTMR.ZS", "Marine protected areas (% of territorial waters)")
    , ("EN.HPT.THRD.NO", "Plant species (higher), threatened")
    ]
  }

  /** `economy_general` (line 568). */
  function EconomyGeneral(): seq<(string, string)>
  {
    [ ("GC.BAL.CASH.GD.ZS", "Cash surplus/deficit (% of GDP)")
    , ("FM.AST.DOMO.ZG.M3", "Claims on other sectors of the domestic economy (annual growth as % of broad money)")
    , ("BN.CAB.XOKA.CD", "Current account balance (BoP, current US$)")
    , ("FR.INR.DPST", "Deposit interest rate (%)")
    , ("IC.CRD.INFO.XQ", "Depth of credit information index (0=low to 8=high)")
    , ("FS.AST.PRVT.GD.ZS", "Domestic credit to private sector (% of GDP)")
    , ("IC.BUS.EASE.XQ", "Ease of doing business index (1=most business-friendly regulations)")
    , ("NE.EXP.GNFS.ZS", "Exports of goods and services (% of GDP)")
    , ("DT.DOD.DECT.CD", "External debt stocks, total (DOD, current US$)")
    , ("BX.KLT.DINV.CD.WD", "Foreign direct investment, net inflows (BoP, current US$)")
    , ("EG.GDP.PUSE.KO.PP.KD", "GDP per unit of energy use (constant 2011 PPP $ per kg of oil equivalent)")
    , ("NY.GDP.MKTP.CD", "GDP (current US$)")
    , ("NY.GNP.PCAP.CD", "GNI per capita, Atlas method (current US$)")
    , ("NE.GDI.TOTL.ZS", "Gross capital formation (% of GDP)")
    , ("NY.GNS.ICTR.ZS", "Gross savings (% of GDP)")
    , ("TM.VAL.MRCH.XD.WD", "Import value index (2000 = 100)")
    , ("NV.IND.TOTL.ZS", "Industry, value added (% of GDP)")
    , ("FP.CPI.TOTL.ZG", "Inflation, consumer prices (annual %)")
    , ("NY.GDP.DEFL.KD.ZG", "Inflation, GDP deflator (annual %)")
    , ("IC.FRM.ISOC.ZS", "Internationally-recognized quality certification (% of firms)")
    , ("FR.INR.LEND", "Lending interest rate (%)")
    , ("FM.LBL.MQMY.ZG", "Money and quasi money growth (annual %)")
    , ("IC.BUS.NREG", "New businesses registered (number)")
    , ("FR.INR.RINR", "Real interest rate (%)")
    , ("GC.REV.XGRT.GD.ZS", "Revenue, excluding grants (% of GDP)")
    , ("BM.TRF.PRVT.CD", "Secondary income, other sectors, payments (BoP, current US$)")
    , ("NV.SRV.TETC.ZS", "Services, etc., value added (% of GDP)")
    , ("IC.LGL.CRED.XQ", "Strength of legal rights index (0=weak to 12=strong)")
    , ("CM.MKT.INDX.ZG", "S&P Global Equity Indices (annual % change)")
    , ("IC.TAX.PAYM", "Tax payments (number)")
    , ("IC.TAX.TOTL.CP.ZS", "Total tax rate (% of commercial profits)")
    , ("BG.GSR.NFSV.GD.ZS", "Trade in services (% of GDP)")
    ]
  }

  /** `economy_socialImpact` (line 602). */
  function EconomySocialImpact(): seq<(string, string)>
  {
    [ ("GC.DOD.TOTL.GD.ZS", "Central government debt, total (% of GDP)")
    , ("FM.AST.CGOV.ZG.M3", "Claims on central government (annual growth as % of broad money)")
    , ("SI.DST.04TH.20", "Income share held by fourth 20%")
    , ("SI.DST.10TH.10", "Income share held by highest 10%")
    , ("SI.DST.05TH.20", "Income share held by highest 20%")
    , ("SI.DST.FRST.10", "Income share held by lowest 10%")
    , ("SI.DST.FRST.20", "Income share held by lowest 20%")
    , ("SI.DST.02ND.20", "Income share held by second 20%")
    , ("SI.DST.03RD.20", "Income share held by third 20%")
    , ("BX.TRF.PWKR.CD.DT", "Personal remittances, received (current US$)")
    , ("IC.CRD.PRVT.ZS", "Private credit bureau coverage (% of adults)")
    , ("IC.CRD.PUBL.ZS", "Public credit registry coverage (% of adults)")
    , ("DT.TDS.DECT.EX.ZS", "Total debt service (% of exports of goods, services and primary income)")
    , ("FI.RES.TOTL.CD", "Total reserves (includes gold, current US$)")
    ]
  }

  /** `economy_employment` (line 618). */
  function EconomyEmployment(): seq<(string, string)>
  {
    [ ("SL.TLF.0714.FE.ZS", "Children in employment, female (% of female children ages 7-14)")
    , ("SL.TLF.0714.MA.ZS", "Children in employment, male (% of male children ages 7-14)")
    , ("SL.TLF.TOTL.IN", "Labor force, total")
    , ("SL.UEM.LTRM.FE.ZS", "Long-term unemployment, female (% of female unemployment)")
    , ("SL.UEM.LTRM.MA.ZS", "Long-term unemployment, male (% of male unemployment)")
    , ("SL.UEM.TOTL.FE.ZS", "Unemployment, female (% of female labor force) (modeled ILO estimate)")
    , ("SL.UEM.TOTL.MA.ZS", "Unemployment, male (% of male labor force) (modeled ILO estimate)")
    , ("SL.UEM.TOTL.ZS", "Unemployment, total (% of total labor force) (modeled ILO estimate)")
    , ("SL.EMP.VULN.ZS", "Vulnerable employment, total (% of total employment)")
    ]
  }

  /** `education` (line 629). */
  function Education(): seq<(string, string)>
  {
    [ ("SE.PRM.UNER.FE", "Children out of school, primary, female")
    , ("SE.PRM.UNER.MA", "Children out of school, primary, male")
    , ("SE.PRM.GINT.FE.ZS", "Gross intake ratio in first grade of primary education, female (% of relevant age group)")
    , ("SE.PRM.GINT.MA.ZS", "Gross intake ratio in first grade of primary education, male (% of relevant age group)")
    , ("SE.PRM.PRSL.FE.ZS", "Persistence to last grade of primary, female (% of cohort)")
    , ("SE.PRM.PRSL.MA.ZS", "Persistence to last grade of primary, male (% of cohort)")
    , ("SE.PRM.CMPT.ZS", "Primary completion rate, total (% of relevant age group)")
    , ("SE.SEC.PROG.FE.ZS", "Progression to secondary school, female (%)")
    , ("SE.SEC.PROG.MA.ZS", "Progression to secondary school, male (%)")
    , ("SE.PRM.ENRL.TC.ZS", "Pupil-teacher ratio, primary")
    , ("SE.ENR.PRIM.FM.ZS", "Ratio of female to male primary enrollment (%)")
    , ("SE.ENR.SECO.FM.ZS", "Ratio of female to male secondary enrollment (%)")
    , ("SE.ENR.TERT.FM.ZS", "Ratio of female to male tertiary enrollment (%)")
    , ("SE.ENR.PRSC.FM.ZS", "Ratio of girls to boys in primary and secondary education (%)")
    , ("SE.PRE.ENRR", "School enrollment, preprimary (% gross)")
    , ("SE.PRM.ENRR", "School enrollment, primary (% gross)")
    , ("SE.PRM.NENR", "School enrollment, primary (% net)")
    , ("SE.SEC.ENRR", "School enrollment, secondary (% gross)")
    , ("SE.SEC.NENR", "School enrollment, secondary (% net)")
    , ("SE.TER.ENRR", "School enrollment, tertiary (% gross)")
    , ("IP.JRN.ARTC.SC", "Scientific and technical journal articles")
    , ("SP.POP.TECH.RD.P6", "Technicians in R&D (per million people)")
    , ("SE.PRM.TCAQ.ZS", "Trained teachers in primary education (% of total teachers)")
    ]
  }

  /** `emission` (line 654). */
  function Emission(): seq<(string, string)>
  {
    [ ("EN.ATM.CO2E.PC", "CO2 emissions (metric tons per capita)")
    , ("EN.ATM.CO2E.KT", "CO2 emissions (kt)")
    , ("EN.ATM.METH.KT.CE", "Methane emissions (kt of CO2 equivalent)")
    , ("EN.ATM.NOXE.KT.CE", "Nitrous oxide emissions (thousand metric tons of CO2 equivalent)")
    , ("EN.ATM.GHGO.KT.CE", "Other greenhouse gas emissions, HFC, PFC and SF6 (thousand metric tons of CO2 equivalent)")
    ]
  }

  /** `energy` (line 661). */
  function Energy(): seq<(string, string)>
  {
    [ ("EG.ELC.ACCS.ZS", "Access to electricity (% of population)")
    , ("EG.USE.COMM.CL.ZS", "Alternative and nuclear energy (% of total energy use)")
    , ("EG.USE.CRNW.ZS", "Combustible renewables and waste (% of total energy)")
    , ("EG.USE.ELEC.KH.PC", "Electric power consumption (kWh per capita)")
    , ("EG.IMP.CONS.ZS", "Energy imports, net (% of energy use)")
    , ("EG.USE.PCAP.KG.OE", "Energy use (kg of oil equivalent per capita)")
    , ("EG.USE.COMM.FO.ZS", "Fossil fuel energy consumption (% of total)")
    , ("EP.PMP.DESL.CD", "Pump price for diesel fuel (US$ per liter)")
    , ("EP.PMP.SGAS.CD", "Pump price for gasoline (US$ per liter)")
    ]
  }

  /** `governmentExpenditure` (line 672). */
  function GovernmentExpenditure(): seq<(string, string)>
  {
    [ ("GC.XPN.TOTL.GD.ZS", "Expense (% of GDP)")
    , ("SE.XPD.TOTL.GD.ZS", "Government expenditure on education, total (% of GDP)")
    , ("SE.XPD.TOTL.GB.ZS", "Government expenditure on education, total (% of government expenditure)")
    , ("SE.XPD.PRIM.PC.ZS", "Government expenditure per student, primary (% of GDP per capita)")
    , ("SE.XPD.SECO.PC.ZS", "Government expenditure per student, secondary (% of GDP per capita)")
    , ("SE.XPD.TERT.PC.ZS", "Government expenditure per student, tertiary (% of GDP per capita)")
    , ("MS.MIL.XPND.ZS", "Military expenditure (% of central government expenditure)")
    , ("MS.MIL.XPND.GD.ZS", "Military expenditure (% of GDP)")
    ]
  }

  /** `health` (line 682). */
  function Health(): seq<(string, string)>
  {
    [ ("SH.XPD.PCAP", "Health expenditure per capita (current US$)")
    , ("SH.XPD.PUBL", "Health expenditure, public (% of total health expenditure)")
    , ("SH.XPD.TOTL.ZS", "Health expenditure, total (% of GDP)")
    , ("SH.STA.ACSN", "Improved sanitation facilities (% of population with access)")
    , ("SH.H2O.SAFE.RU.ZS", "Improved water source, rural (% of rural population with access)")
    , ("SH.H2O.SAFE.UR.ZS", "Improved water source, urban (% of urban population with access)")
    , ("SH.XPD.OOPC.ZS", "Out-of-pocket health expenditure (% of private expenditure on health)")
    ]
  }

  /** `internationalRelations` (line 691). */
  function InternationalRelations(): seq<(string, string)>
  {
    [ ("DT.ODA.ODAT.GN.ZS", "Net ODA received (% of GNI)")
    , ("DT.ODA.ODAT.PC.ZS", "Net ODA received per capita (current US$)")
    , ("DT.ODA.ALLD.CD", "Net official development assistance and official aid received (current US$)")
    , ("DT.ODA.ODAT.CD", "Net official development assistance received (current US$)")
    ]
  }

  /** `landUse` (line 697). */
  function LandUse(): seq<(string, string)>
  {
    [ ("AG.LND.AGRI.ZS", "Agricultural land (% of land area)")
    , ("NV.AGR.TOTL.ZS", "Agriculture, value added (% of GDP)")
    , ("ER.H2O.FWTL.K3", "Annual freshwater withdrawals, total (billion cubic meters)")
    , ("AG.LND.ARBL.ZS", "Arable land (% of land area)")
    , ("SL.AGR.EMPL.ZS", "Employment in agriculture (% of total employment)")
    , ("AG.CON.FERT.ZS", "Fertilizer consumption (kilograms per hectare of arable land)")
    , ("AG.LND.TOTL.K2", "Land area (sq. km)")
    , ("AG.LND.CROP.ZS", "Permanent cropland (% of land area)")
    ]
  }

  /** `population` (line 707). */
  function Population(): seq<(string, string)>
  {
    [ ("SM.POP.NETM", "Net migration")
    , ("SP.RUR.TOTL.ZS", "Percentage of Population in Rural Areas (in % of Total Population)")
    , ("SP.POP.0014.TO.ZS", "Population ages 0-14 (% of total)")
    , ("SP.POP.1564.TO.ZS", "Population ages 15-64 (% of total)")
    , ("SP.POP.TOTL.FE.ZS", "Population, female (% of total)")
    , ("SP.POP.GROW", "Population growth (annual %)")
    , ("EN.URB.MCTY.TL.ZS", "Population in urban agglomerations of more than 1 million (% of total population)")
    , ("SM.POP.REFG", "Refugee population by country or territory of asylum")
    , ("SM.POP.REFG.OR", "Refugee population by country or territory of origin")
    , ("SP.RUR.TOTL", "Rural population")
    , ("SI.POV.RUGP", "Rural poverty gap at national poverty lines (%)")
    , ("SP.POP.TOTL", "Total Population (in number of people)")
    , ("SP.URB.TOTL", "Urban population")
    , ("SP.URB.TOTL.IN.ZS", "Urban population (% of total)")
    , ("SI.POV.URGP", "Urban poverty gap at national poverty lines (%)")
    ]
  }

  /** `unhcr` (line 724). */
  function Unhcr(): seq<(string, string)>
  {
    [ ("Refugees (incl. refugee-like situations)", "Refugees (incl. refugee-like situations)")
    , ("Asylum-seekers (pending cases)", "Asylum-seekers (pending cases)")
    , ("Returned refugees", "Returned refugees")
    , ("Internally displaced persons (IDPs)", "Internally displaced persons (IDPs)")
    , ("Returned IDPs", "Returned IDPs")
    , ("Stateless persons", "Stateless persons")
    , ("Others of concern", "Others of concern")
    , ("Total Population", "Total Population")
    ]
  }

  /** `oecd` (line 734). */
  function Oecd(): seq<(string, string)>
  {
    [ ("Acquisition of nationality by country of former nationality", "Acquisition of nationality by country of former nationality")
    , ("Inflows of asylum seekers by nationality", "Inflows of asylum seekers by nationality")
    , ("Inflows of foreign population by nationality", "Inflows of foreign population by nationality")
    , ("Inflows of foreign workers by nationality", "Inflows of foreign workers by nationality")
    , ("Inflows of seasonal foreign workers by nationality", "Inflows of seasonal foreign workers by nationality")
    , ("Outflows of foreign population by nationality", "Outflows of foreign population by nationality")
    , ("Stock of foreign labour by nationality", "Stock of foreign labour by nationality")
    , ("Stock of foreign population by nationality", "Stock of foreign population by nationality")
    , ("Stock of foreign-born labour by country of birth", "Stock of foreign-born labour by country of birth")
    , ("Stock of foreign-born population by country of birth", "Stock of foreign-born population by country of birth")
    ]
  }

  /** `newspaper` (line 746). */
  function Newspaper(): seq<(string, string)>
  {
    [ ("Mentions_NYT", "Mentions_NYT")
    ]
  }

  /** The categories with the labels `_map` reports for them. */
  function Groups(): seq<Group>
  {
    [ Group("Development", Development())
    , Group("Ecology", Ecology())
    , Group("Economy (general)", EconomyGeneral())
    , Group("Economy (social impact)", EconomySocialImpact())
    , Group("Economy (employment)", EconomyEmployment())
    , Group("Education", Education())
    , Group("Emission", Emission())
    , Group("Energy", Energy())
    , Group("Government expenditure", GovernmentExpenditure())
    , Group("Health", Health())
    , Group("International relations", InternationalRelations())
    , Group("Land use", LandUse())
    , Group("Population", Population())
    , Group("UNHCR", Unhcr())
    , Group("OECD", Oecd())
    , Group("Newspaper", Newspaper())
    ]
  }

  /** `dataClassMapper()`: the mapper over the literal categories. */
  method NewDataClassMapper() returns (m: DataClassMapper)
    ensures Built(m, Groups())
  {
    m := new DataClassMapper(Groups());
  }

  /** The agg dictionary of `DataContainer.collapse` (lib/dataContainer.py:98-272). */
  function CollapsePolicy(): map<string, Aggregation>
  {
    Policy(Groups())
  }

  /** `orderedColumns` of `DataContainer.orderColumns` (lib/dataContainer.py:501-517). */
  function OrderedColumnList(): seq<string>
  {
    OrderedColumns(Groups())
  }
}

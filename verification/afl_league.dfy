/** The AFL league's identity tables and source priority
    (afl_combined_league_model.py). Each table sends every spelling a
    scraped source uses for a team or a venue to one canonical identifier
    string; a lookup is `dict.get`, `None` for an unknown spelling. The
    canonical identifiers are enumerated as datatypes whose constructors
    name the module constants, and `TeamKey`/`VenueKey` give the strings
    those constants hold. */
module AflLeague {
  import opened Wrappers
  import Fold

  /** The canonical teams (lines 14-34). */
  datatype TeamId =
    | Fitzroy | Carlton | Collingwood | Stkilda | Geelong | Essendon | Swans | Melbourne
    | University | Richmond | Bulldogs | Kangaroos | Hawthorn | BrisbaneBears
    | Westcoast | Adelaide | Fremantle | BrisbaneLions | PortAdelaide | Gws | Goldcoast

  /** The canonical venues (lines 101-157). */
  datatype VenueId =
    | BrunswickSt | VictoriaPark | CorioOval | LakeOval | EastMelbourne | JunctionOval
    | Mcg | PrincesPark | Scg | PuntRd | WindyHill | GlenferrieOval | ArdenSt
    | WesternOval | OlympicPark | KardiniaPark | YarravilleOval | ToorakPark | Euroa
    | NorthHobart | Yallourn | Albury | BrisbaneExhibition | MoorabbinOval | CoburgOval
    | WaverleyPark | Subiaco | Gabba | Carrara | Waca | FootballPark | ManukaOval
    | Docklands | StadiumAustralia | YorkPark | Showground | MarraraOval
    | CazalysStadium | AdelaideOval | Wellington | BelleriveOval | Traeger | Jiangwan
    | Eureka | Perth | BruceStadium | Blacktown | Riverway | Norwood | Summit
    | AngelStadium | ThunderdomeStadium | SpotlandStadium | GiantsStadium | TiposArena
    | BarossaPark | HandsOval

  /** The identifier string of each team constant. The Western Bulldogs'
      is spelled `bullldogs_idx`, with three l's. */
  function TeamKey(id: TeamId): string {
    match id
    case Fitzroy => "fitzroy_idx"
    case Carlton => "carlton_idx"
    case Collingwood => "collingwood_idx"
    case Stkilda => "stkilda_idx"
    case Geelong => "geelong_idx"
    case Essendon => "essendon_idx"
    case Swans => "swans_idx"
    case Melbourne => "melbourne_idx"
    case University => "university_idx"
    case Richmond => "richmond_idx"
    case Bulldogs => "bullldogs_idx"
    case Kangaroos => "kangaroos_idx"
    case Hawthorn => "hawthorn_idx"
    case BrisbaneBears => "brisbaneb_idx"
    case Westcoast => "westcoast_idx"
    case Adelaide => "adelaide_idx"
    case Fremantle => "fremantle_idx"
    case BrisbaneLions => "brisbanel_idx"
    case PortAdelaide => "padelaide_idx"
    case Gws => "gws_idx"
    case Goldcoast => "goldcoast_idx"
  }

  /** The identifier string of each venue constant; most are snake case,
      seven are display names. */
  function VenueKey(id: VenueId): string {
    match id
    case BrunswickSt => "brunswick_st"
    case VictoriaPark => "victoria_park"
    case CorioOval => "corio_oval"
    case LakeOval => "lake_oval"
    case EastMelbourne => "east_melbourne"
    case JunctionOval => "junction_oval"
    case Mcg => "mcg"
    case PrincesPark => "princes_park"
    case Scg => "scg"
    case PuntRd => "punt_rd"
    case WindyHill => "windy_hill"
    case GlenferrieOval => "glenferrie_oval"
    case ArdenSt => "arden_st"
    case WesternOval => "western_oval"
    case OlympicPark => "olympic_park"
    case KardiniaPark => "kardinia_park"
    case YarravilleOval => "yarraville_oval"
    case ToorakPark => "toorak_park"
    case Euroa => "euroa"
    case NorthHobart => "north_hobart"
    case Yallourn => "yallourn"
    case Albury => "albury"
    case BrisbaneExhibition => "brisbane_exhibition"
    case MoorabbinOval => "moorabbin_oval"
    case CoburgOval => "coburg_oval"
    case WaverleyPark => "waverley_park"
    case Subiaco => "subiaco"
    case Gabba => "gabba"
    case Carrara => "carrara"
    case Waca => "waca"
    case FootballPark => "football_park"
    case ManukaOval => "manuka_oval"
    case Docklands => "docklands"
    case StadiumAustralia => "stadium_australia"
    case YorkPark => "york_park"
    case Showground => "showground"
    case MarraraOval => "marrara_oval"
    case CazalysStadium => "cazalys_stadium"
    case AdelaideOval => "adelaide_oval"
    case Wellington => "wrs"
    case BelleriveOval => "bellerive_oval"
    case Traeger => "traeger"
    case Jiangwan => "jiangwan"
    case Eureka => "eureka"
    case Perth => "perth"
    case BruceStadium => "bruce_stadium"
    case Blacktown => "blacktown"
    case Riverway => "riverway"
    case Norwood => "norwood"
    case Summit => "summit"
    case AngelStadium => "Angel Stadium of Anaheim"
    case ThunderdomeStadium => "Thunderdome Stadium"
    case SpotlandStadium => "Spotland Stadium"
    case GiantsStadium => "Giants Stadium"
    case TiposArena => "Ondrej Nepela Arena"
    case BarossaPark => "Barossa Park"
    case HandsOval => "Hands Oval, Bunbury"
  }

  /** The entry of `AFL_TEAM_IDENTITY_MAP` for `name`, if any. The keys
      are grouped by their length so that a lookup compares `name` with
      a few keys only; the grouping does not change the table. */
  function TeamLookup(name: string): Option<TeamId> {
    match |name|
    case 5 => (
      match name
      case "Narrm" => Some(Melbourne)
      case _ => None)
    case 6 => (
      match name
      case "Sydney" => Some(Swans)
      case _ => None)
    case 7 => (
      match name
      case "gws_idx" => Some(Gws)
      case "Geelong" => Some(Geelong)
      case "Carlton" => Some(Carlton)
      case "Kuwarna" => Some(Adelaide)
      case _ => None)
    case 8 => (
      match name
      case "Brisbane" => Some(BrisbaneLions)
      case "Hawthorn" => Some(Hawthorn)
      case "St Kilda" => Some(Stkilda)
      case "Adelaide" => Some(Adelaide)
      case "Essendon" => Some(Essendon)
      case "Richmond" => Some(Richmond)
      case "Walyalup" => Some(Fremantle)
      case _ => None)
    case 9 => (
      match name
      case "swans_idx" => Some(Swans)
      case "Fremantle" => Some(Fremantle)
      case "Melbourne" => Some(Melbourne)
      case _ => None)
    case 10 => (
      match name
      case "GWS Giants" => Some(Gws)
      case "Gold Coast" => Some(Goldcoast)
      case "West Coast" => Some(Westcoast)
      case "GWS GIANTS" => Some(Gws)
      case "Euro-Yroke" => Some(Stkilda)
      case _ => None)
    case 11 => (
      match name
      case "fitzroy_idx" => Some(Fitzroy)
      case "carlton_idx" => Some(Carlton)
      case "stkilda_idx" => Some(Stkilda)
      case "geelong_idx" => Some(Geelong)
      case "Collingwood" => Some(Collingwood)
      case "Yartapuulti" => Some(PortAdelaide)
      case _ => None)
    case 12 => (
      match name
      case "essendon_idx" => Some(Essendon)
      case "richmond_idx" => Some(Richmond)
      case "hawthorn_idx" => Some(Hawthorn)
      case "adelaide_idx" => Some(Adelaide)
      case "Sydney Swans" => Some(Swans)
      case "Geelong Cats" => Some(Geelong)
      case _ => None)
    case 13 => (
      match name
      case "melbourne_idx" => Some(Melbourne)
      case "bullldogs_idx" => Some(Bulldogs)
      case "kangaroos_idx" => Some(Kangaroos)
      case "brisbaneb_idx" => Some(BrisbaneBears)
      case "westcoast_idx" => Some(Westcoast)
      case "fremantle_idx" => Some(Fremantle)
      case "brisbanel_idx" => Some(BrisbaneLions)
      case "padelaide_idx" => Some(PortAdelaide)
      case "goldcoast_idx" => Some(Goldcoast)
      case "Port Adelaide" => Some(PortAdelaide)
      case "Carlton Blues" => Some(Carlton)
      case _ => None)
    case 14 => (
      match name
      case "university_idx" => Some(University)
      case "Hawthorn Hawks" => Some(Hawthorn)
      case "Adelaide Crows" => Some(Adelaide)
      case "Brisbane Lions" => Some(BrisbaneLions)
      case _ => None)
    case 15 => (
      match name
      case "collingwood_idx" => Some(Collingwood)
      case "North Melbourne" => Some(Kangaroos)
      case "Richmond Tigers" => Some(Richmond)
      case "St Kilda Saints" => Some(Stkilda)
      case "Gold Coast Suns" => Some(Goldcoast)
      case "Gold Coast SUNS" => Some(Goldcoast)
      case "Waalitj Marawar" => Some(Westcoast)
      case _ => None)
    case 16 => (
      match name
      case "Western Bulldogs" => Some(Bulldogs)
      case "Essendon Bombers" => Some(Essendon)
      case "Melbourne Demons" => Some(Melbourne)
      case _ => None)
    case 17 => (
      match name
      case "Fremantle Dockers" => Some(Fremantle)
      case "West Coast Eagles" => Some(Westcoast)
      case _ => None)
    case 19 => (
      match name
      case "Collingwood Magpies" => Some(Collingwood)
      case "Port Adelaide Power" => Some(PortAdelaide)
      case _ => None)
    case _ => None
  }

  /** The entry of `AFL_VENUE_IDENTITY_MAP` for `name`, if any, with the
      keys grouped by length as in `TeamLookup`. */
  function VenueLookup(name: string): Option<VenueId> {
    match |name|
    case 3 => (
      match name
      case "mcg" => Some(Mcg)
      case "scg" => Some(Scg)
      case "wrs" => Some(Wellington)
      case "MCG" => Some(Mcg)
      case "SCG" => Some(Scg)
      case _ => None)
    case 4 => (
      match name
      case "waca" => Some(Waca)
      case _ => None)
    case 5 => (
      match name
      case "euroa" => Some(Euroa)
      case "gabba" => Some(Gabba)
      case "perth" => Some(Perth)
      case "hands" => Some(HandsOval)
      case "Gabba" => Some(Gabba)
      case "Marvl" => Some(Docklands)
      case _ => None)
    case 6 => (
      match name
      case "albury" => Some(Albury)
      case "eureka" => Some(Eureka)
      case "summit" => Some(Summit)
      case _ => None)
    case 7 => (
      match name
      case "punt_rd" => Some(PuntRd)
      case "subiaco" => Some(Subiaco)
      case "carrara" => Some(Carrara)
      case "traeger" => Some(Traeger)
      case "norwood" => Some(Norwood)
      case "barossa" => Some(BarossaPark)
      case _ => None)
    case 8 => (
      match name
      case "arden_st" => Some(ArdenSt)
      case "yallourn" => Some(Yallourn)
      case "jiangwan" => Some(Jiangwan)
      case "riverway" => Some(Riverway)
      case _ => None)
    case 9 => (
      match name
      case "lake_oval" => Some(LakeOval)
      case "docklands" => Some(Docklands)
      case "york_park" => Some(YorkPark)
      case "blacktown" => Some(Blacktown)
      case "The Gabba" => Some(Gabba)
      case _ => None)
    case 10 => (
      match name
      case "corio_oval" => Some(CorioOval)
      case "windy_hill" => Some(WindyHill)
      case "showground" => Some(Showground)
      case "Hands Oval" => Some(HandsOval)
      case _ => None)
    case 11 => (
      match name
      case "toorak_park" => Some(ToorakPark)
      case "coburg_oval" => Some(CoburgOval)
      case "manuka_oval" => Some(ManukaOval)
      case "Manuka Oval" => Some(ManukaOval)
      case "TIO Stadium" => Some(MarraraOval)
      case "SCG, Sydney" => Some(Scg)
      case _ => None)
    case 12 => (
      match name
      case "brunswick_st" => Some(BrunswickSt)
      case "princes_park" => Some(PrincesPark)
      case "western_oval" => Some(WesternOval)
      case "olympic_park" => Some(OlympicPark)
      case "north_hobart" => Some(NorthHobart)
      case "marrara_oval" => Some(MarraraOval)
      case "Mars Stadium" => Some(Eureka)
      case "UTAS Stadium" => Some(YorkPark)
      case "Norwood Oval" => Some(Norwood)
      case "Traeger Park" => Some(Traeger)
      case "AAMI Stadium" => Some(FootballPark)
      case "Subiaco Oval" => Some(Subiaco)
      case "Marrara Oval" => Some(MarraraOval)
      case "Barossa Park" => Some(BarossaPark)
      case _ => None)
    case 13 => (
      match name
      case "victoria_park" => Some(VictoriaPark)
      case "junction_oval" => Some(JunctionOval)
      case "kardinia_park" => Some(KardiniaPark)
      case "waverley_park" => Some(WaverleyPark)
      case "football_park" => Some(FootballPark)
      case "adelaide_oval" => Some(AdelaideOval)
      case "bruce_stadium" => Some(BruceStadium)
      case "ENGIE Stadium" => Some(StadiumAustralia)
      case "Adelaide Oval" => Some(AdelaideOval)
      case "Optus Stadium" => Some(Perth)
      case "GMHBA Stadium" => Some(KardiniaPark)
      case "Accor Stadium" => Some(StadiumAustralia)
      case "Engie Stadium" => Some(StadiumAustralia)
      case "Ninja Stadium" => Some(BelleriveOval)
      case _ => None)
    case 14 => (
      match name
      case "east_melbourne" => Some(EastMelbourne)
      case "moorabbin_oval" => Some(MoorabbinOval)
      case "bellerive_oval" => Some(BelleriveOval)
      case "Marvel Stadium" => Some(Docklands)
      case "Adelaide Hills" => Some(Summit)
      case "Domain Stadium" => Some(Subiaco)
      case "Blacktown Park" => Some(Blacktown)
      case "Giants Stadium" => Some(GiantsStadium)
      case "MCG, Melbourne" => Some(Mcg)
      case _ => None)
    case 15 => (
      match name
      case "glenferrie_oval" => Some(GlenferrieOval)
      case "yarraville_oval" => Some(YarravilleOval)
      case "cazalys_stadium" => Some(CazalysStadium)
      case "Westpac Stadium" => Some(Wellington)
      case "Gabba, Brisbane" => Some(Gabba)
      case _ => None)
    case 16 => (
      match name
      case "Blundstone Arena" => Some(BelleriveOval)
      case "Cazaly\U{2019}s Stadium" => Some(CazalysStadium)
      case "Riverway Stadium" => Some(Riverway)
      case "Spotland Stadium" => Some(SpotlandStadium)
      case "Cazaly's Stadium" => Some(CazalysStadium)
      case "Jiangwan Stadium" => Some(Jiangwan)
      case "TIO Traeger Park" => Some(Traeger)
      case _ => None)
    case 17 => (
      match name
      case "stadium_australia" => Some(StadiumAustralia)
      case _ => None)
    case 19 => (
      match name
      case "brisbane_exhibition" => Some(BrisbaneExhibition)
      case "Thunderdome Stadium" => Some(ThunderdomeStadium)
      case "Ondrej Nepela Arena" => Some(TiposArena)
      case "TIO Stadium, Darwin" => Some(MarraraOval)
      case "Hands Oval, Bunbury" => Some(HandsOval)
      case _ => None)
    case 20 => (
      match name
      case "People First Stadium" => Some(Carrara)
      case "Optus Stadium, Perth" => Some(Perth)
      case _ => None)
    case 21 => (
      match name
      case "Sydney Cricket Ground" => Some(Scg)
      case "ENGIE Stadium, Sydney" => Some(StadiumAustralia)
      case _ => None)
    case 22 => (
      match name
      case "Jiangwan Sports Centre" => Some(Jiangwan)
      case "GMHBA Stadium, Geelong" => Some(KardiniaPark)
      case "Hands Oval - Australia" => Some(HandsOval)
      case _ => None)
    case 23 => (
      match name
      case "Adelaide Oval, Adelaide" => Some(AdelaideOval)
      case _ => None)
    case 24 => (
      match name
      case "Melbourne Cricket Ground" => Some(Mcg)
      case "Angel Stadium of Anaheim" => Some(AngelStadium)
      case "UTAS Stadium, Launceston" => Some(YorkPark)
      case _ => None)
    case 25 => (
      match name
      case "Marvel Stadium, Melbourne" => Some(Docklands)
      case _ => None)
    case 30 => (
      match name
      case "University of Tasmania Stadium" => Some(YorkPark)
      case _ => None)
    case 31 => (
      match name
      case "TIO Traeger Park, Alice Springs" => Some(Traeger)
      case _ => None)
    case 32 => (
      match name
      case "People First Stadium, Gold Coast" => Some(Carrara)
      case _ => None)
    case 38 => (
      match name
      case "Corroboree Group Oval Manuka, Canberra" => Some(ManukaOval)
      case _ => None)
    case 42 => (
      match name
      case "University of Tasmania Stadium, Launceston" => Some(YorkPark)
      case _ => None)
    case _ => None
  }

  /** `AFL_TEAM_IDENTITY_MAP.get(name)`. */
  function TeamIdentity(name: string): (r: Option<string>)
    ensures r.None? <==> TeamLookup(name).None?
    ensures r.Some? ==> TeamLookup(r.value) == TeamLookup(name)
  {
    match TeamLookup(name)
    case Some(id) =>
      TeamKeyFixed(id);
      Some(TeamKey(id))
    case None => None
  }

  /** `AFL_VENUE_IDENTITY_MAP.get(name)`. */
  function VenueIdentity(name: string): (r: Option<string>)
    ensures r.None? <==> VenueLookup(name).None?
    ensures r.Some? ==> VenueLookup(r.value) == VenueLookup(name)
  {
    match VenueLookup(name)
    case Some(id) =>
      VenueKeyFixed(id);
      Some(VenueKey(id))
    case None => None
  }

  // ---------------------------------------------------------------------
  // Every canonical identifier is a key of its table mapping to itself

  lemma TeamKeyFixed(id: TeamId)
    ensures TeamLookup(TeamKey(id)) == Some(id)
  {
  }

  /** Venues are checked in batches of 8, by declaration order. */
  function VenueBatch(id: VenueId): nat {
    match id
    case BrunswickSt => 0
    case VictoriaPark => 0
    case CorioOval => 0
    case LakeOval => 0
    case EastMelbourne => 0
    case JunctionOval => 0
    case Mcg => 0
    case PrincesPark => 0
    case Scg => 1
    case PuntRd => 1
    case WindyHill => 1
    case GlenferrieOval => 1
    case ArdenSt => 1
    case WesternOval => 1
    case OlympicPark => 1
    case KardiniaPark => 1
    case YarravilleOval => 2
    case ToorakPark => 2
    case Euroa => 2
    case NorthHobart => 2
    case Yallourn => 2
    case Albury => 2
    case BrisbaneExhibition => 2
    case MoorabbinOval => 2
    case CoburgOval => 3
    case WaverleyPark => 3
    case Subiaco => 3
    case Gabba => 3
    case Carrara => 3
    case Waca => 3
    case FootballPark => 3
    case ManukaOval => 3
    case Docklands => 4
    case StadiumAustralia => 4
    case YorkPark => 4
    case Showground => 4
    case MarraraOval => 4
    case CazalysStadium => 4
    case AdelaideOval => 4
    case Wellington => 4
    case BelleriveOval => 5
    case Traeger => 5
    case Jiangwan => 5
    case Eureka => 5
    case Perth => 5
    case BruceStadium => 5
    case Blacktown => 5
    case Riverway => 5
    case Norwood => 6
    case Summit => 6
    case AngelStadium => 6
    case ThunderdomeStadium => 6
    case SpotlandStadium => 6
    case GiantsStadium => 6
    case TiposArena => 6
    case BarossaPark => 6
    case HandsOval => 7
  }

  lemma VenueKeyFixedBatch0(id: VenueId)
    requires VenueBatch(id) == 0
    ensures VenueLookup(VenueKey(id)) == Some(id)
  {
  }

  lemma VenueKeyFixedBatch1(id: VenueId)
    requires VenueBatch(id) == 1
    ensures VenueLookup(VenueKey(id)) == Some(id)
  {
  }

  lemma VenueKeyFixedBatch2(id: VenueId)
    requires VenueBatch(id) == 2
    ensures VenueLookup(VenueKey(id)) == Some(id)
  {
  }

  lemma VenueKeyFixedBatch3(id: VenueId)
    requires VenueBatch(id) == 3
    ensures VenueLookup(VenueKey(id)) == Some(id)
  {
  }

  lemma VenueKeyFixedBatch4(id: VenueId)
    requires VenueBatch(id) == 4
    ensures VenueLookup(VenueKey(id)) == Some(id)
  {
  }

  lemma VenueKeyFixedBatch5(id: VenueId)
    requires VenueBatch(id) == 5
    ensures VenueLookup(VenueKey(id)) == Some(id)
  {
  }

  lemma VenueKeyFixedBatch6(id: VenueId)
    requires VenueBatch(id) == 6
    ensures VenueLookup(VenueKey(id)) == Some(id)
  {
  }

  lemma VenueKeyFixedBatch7(id: VenueId)
    requires VenueBatch(id) == 7
    ensures VenueLookup(VenueKey(id)) == Some(id)
  {
  }

  lemma VenueKeyFixed(id: VenueId)
    ensures VenueLookup(VenueKey(id)) == Some(id)
  {
    match VenueBatch(id)
    case 0 => VenueKeyFixedBatch0(id);
    case 1 => VenueKeyFixedBatch1(id);
    case 2 => VenueKeyFixedBatch2(id);
    case 3 => VenueKeyFixedBatch3(id);
    case 4 => VenueKeyFixedBatch4(id);
    case 5 => VenueKeyFixedBatch5(id);
    case 6 => VenueKeyFixedBatch6(id);
    case _ => VenueKeyFixedBatch7(id);
  }

  /** The team table is idempotent: every identifier it produces is a key
      that maps to itself, so mapping an identity again changes nothing. */
  lemma TeamIdentityIdempotent(name: string)
    requires TeamIdentity(name).Some?
    ensures TeamIdentity(TeamIdentity(name).value) == TeamIdentity(name)
  {
  }

  /** The venue table is idempotent in the same way, display-name
      identifiers such as "Barossa Park" and "Hands Oval, Bunbury"
      included. */
  lemma VenueIdentityIdempotent(name: string)
    requires VenueIdentity(name).Some?
    ensures VenueIdentity(VenueIdentity(name).value) == VenueIdentity(name)
  {
  }

  /** Distinct canonical teams have distinct identifier strings, so the
      table never merges two clubs by accident of spelling. */
  lemma TeamKeyInjective(a: TeamId, b: TeamId)
    requires TeamKey(a) == TeamKey(b)
    ensures a == b
  {
    TeamKeyFixed(a);
    TeamKeyFixed(b);
  }

  lemma VenueKeyInjective(a: VenueId, b: VenueId)
    requires VenueKey(a) == VenueKey(b)
    ensures a == b
  {
    VenueKeyFixed(a);
    VenueKeyFixed(b);
  }

  /** Several spellings share one identity: the club's name, the
      OddsPortal name and the identifier itself. */
  lemma SydneyAliases()
    ensures TeamIdentity("Sydney") == Some("swans_idx")
    ensures TeamIdentity("Sydney Swans") == Some("swans_idx")
    ensures TeamIdentity("swans_idx") == Some("swans_idx")
  {
  }

  /** Four spellings of the Bunbury ground, including the geocoder query
      form, share an identity that is a display name. */
  lemma HandsOvalAliases()
    ensures VenueIdentity("Hands Oval") == Some("Hands Oval, Bunbury")
    ensures VenueIdentity("Hands Oval - Australia") == Some("Hands Oval, Bunbury")
    ensures VenueIdentity("hands") == Some("Hands Oval, Bunbury")
    ensures VenueIdentity("Hands Oval, Bunbury") == Some("Hands Oval, Bunbury")
  {
  }

  /** The typographic and the plain apostrophe spellings of Cazaly's
      Stadium are both known. */
  lemma CazalysAliases()
    ensures VenueIdentity("Cazaly\U{2019}s Stadium") == Some("cazalys_stadium")
    ensures VenueIdentity("Cazaly's Stadium") == Some("cazalys_stadium")
  {
  }

  /** "Brisbane" is the Lions; the Bears are reached only through their
      own identifier. */
  lemma BrisbaneIsTheLions(name: string)
    ensures TeamIdentity("Brisbane") == Some(TeamKey(BrisbaneLions))
    ensures TeamKey(BrisbaneBears) != TeamKey(BrisbaneLions)
    ensures TeamLookup(name) == Some(BrisbaneBears) <==> name == TeamKey(BrisbaneBears)
  {
  }

  // ---------------------------------------------------------------------
  // Source priority

  /** The scrapers the AFL combined league reads. */
  datatype Source = AflTables | Espn | AusSportsBetting | OddsPortal | AflSite

  /** The sources by position: the order in which their records reach the
      merge folds. */
  const Priority: seq<Source> := [AflTables, Espn, AusSportsBetting, OddsPortal, AflSite]

  /** One field as each source reports it, in priority order. */
  function Reported<T>(valueOf: Source -> Option<T>): (xs: seq<Option<T>>)
    ensures |xs| == |Priority|
    ensures forall i :: 0 <= i < |Priority| ==> xs[i] == valueOf(Priority[i])
  {
    seq(|Priority|, i requires 0 <= i < |Priority| => valueOf(Priority[i]))
  }

  /** Under last-wins, a source's value stands unless a source later in
      the priority list reports one. */
  lemma LaterSourceOverrides<T>(valueOf: Source -> Option<T>, i: nat)
    requires i < |Priority| && valueOf(Priority[i]).Some?
    requires forall j :: i < j < |Priority| ==> valueOf(Priority[j]).None?
    ensures Fold.LastPresent(Reported(valueOf)) == valueOf(Priority[i])
  {
    Fold.LastPresentAt(Reported(valueOf), i);
  }

  /** In particular the AFL site, last in the list, overrides every other
      source whenever it reports a value. */
  lemma AflSiteWins<T>(valueOf: Source -> Option<T>)
    requires valueOf(AflSite).Some?
    ensures Fold.LastPresent(Reported(valueOf)) == valueOf(AflSite)
  {
    LaterSourceOverrides(valueOf, 4);
  }
}

/** The records the dashboard imports and the view-model structures the engine
    derives from them (src/types/index.ts). Field names are the English renderings
    of the source's Spanish ones: marca = brand, modelo = model,
    tipo_vehiculo = vehicleType, unidades = units, año = year, mes = month,
    fecha = date. */
module Types {

  datatype Option<+T> = None | Some(value: T)

  /** One imported line item. Units are a natural number: the source types them as
      `number`, and the upload keeps only records with positive units. */
  datatype ImportRecord = ImportRecord(
    id: string,
    date: string,
    brand: string,
    model: string,
    vehicleType: string,
    units: nat,
    year: int,
    month: int)

  /** The rule by which the upload keeps a record: a brand, a model and at least one unit. */
  predicate ValidRecord(r: ImportRecord) {
    r.brand != "" && r.model != "" && r.units > 0
  }

  predicate AllValid(s: seq<ImportRecord>) {
    forall i :: 0 <= i < |s| ==> ValidRecord(s[i])
  }

  datatype KPIData = KPIData(
    totalVehicles: nat,
    totalBrands: nat,
    totalModels: nat,
    monthlyVariation: real,
    yearlyVariation: real)

  /** A named aggregate; the engine's rankings leave percentage unset and only the
      growth ranking sets growth. */
  datatype RankingItem = RankingItem(
    name: string,
    value: nat,
    percentage: Option<real>,
    growth: Option<real>)

  datatype MarketShareData = MarketShareData(name: string, value: nat, percentage: real)

  datatype NewVehicle = NewVehicle(brand: string, model: string, vehicleType: string, units: nat)
}

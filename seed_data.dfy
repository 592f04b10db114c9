/** The collections the dashboard starts with (components/DashboardPage.tsx). */
module Seed {
  import opened Values

  function Keeper(id: int, name: string, specialty: string, contact: string, status: string): Rec
  {
    Rec(id, map["name" := Str(name), "specialty" := Str(specialty), "contact" := Str(contact), "status" := Str(status)])
  }

  function Vet(id: int, name: string, specialty: string, crmv: string, status: string): Rec
  {
    Rec(id, map["name" := Str(name), "specialty" := Str(specialty), "crmv" := Str(crmv), "status" := Str(status)])
  }

  function Habitat(id: int, name: string, kind: string, capacity: int, status: string): Rec
  {
    Rec(id, map["name" := Str(name), "type" := Str(kind), "capacity" := Num(capacity), "status" := Str(status)])
  }

  function Plan(id: int, planName: string, species: string, food: string, quantity: string, frequency: string): Rec
  {
    Rec(id, map["planName" := Str(planName), "animalSpecies" := Str(species), "foodType" := Str(food),
                "quantity" := Str(quantity), "frequency" := Str(frequency)])
  }

  function Animal(id: int, name: string, species: string, age: int, sex: string, keeperId: int, vetId: int,
                  habitatId: int, feedingPlanId: int, status: string, arrivalDate: string): Rec
  {
    Rec(id, map["name" := Str(name), "species" := Str(species), "age" := Num(age), "sex" := Str(sex),
                "keeperId" := Num(keeperId), "vetId" := Num(vetId), "habitatId" := Num(habitatId),
                "feedingPlanId" := Num(feedingPlanId), "status" := Str(status), "arrivalDate" := Str(arrivalDate)])
  }

  const Keepers: seq<Rec> := [
    Keeper(1, "David Chen", "Grandes Felinos", "david@santuario.com", "Ativo"),
    Keeper(2, "Maria Garcia", "Aves e Répteis", "maria@santuario.com", "Ativo"),
    Keeper(3, "João Silva", "Primatas", "joao@santuario.com", "Férias")
  ]

  const Vets: seq<Rec> := [
    Vet(1, "Dr. Anya Sharma", "Cirurgia Geral", "CRMV-SP 12345", "Ativo"),
    Vet(2, "Dr. Carlos Lima", "Animais Exóticos", "CRMV-RJ 54321", "Ativo")
  ]

  const Habitats: seq<Rec> := [
    Habitat(1, "Savana Africana", "Terrestre", 15, "Operacional"),
    Habitat(2, "Floresta Tropical", "Misto", 20, "Operacional"),
    Habitat(3, "Grande Aquário", "Aquático", 30, "Em Manutenção"),
    Habitat(4, "Aviário", "Aviário", 50, "Operacional"),
    Habitat(5, "Reptilário", "Reptilário", 25, "Operacional")
  ]

  const FeedingPlans: seq<Rec> := [
    Plan(1, "Dieta Carnívora Padrão", "Grandes Felinos", "Carne Vermelha", "5kg", "2x ao dia"),
    Plan(2, "Dieta de Primatas", "Micos", "Frutas e Insetos", "500g", "3x ao dia"),
    Plan(3, "Dieta de Aves de Bico Grande", "Tucano", "Frutas e sementes", "300g", "Contínuo"),
    Plan(4, "Dieta de Herbívoros", "Zebra", "Feno e vegetais", "10kg", "Contínuo")
  ]

  const Animals: seq<Rec> := [
    Animal(1, "Leo o Leão", "Leão", 5, "Macho", 1, 1, 1, 1, "Ativo", "2022-03-15"),
    Animal(2, "Kiki", "Mico-Leão-Dourado", 2, "Fêmea", 3, 2, 2, 2, "Ativo", "2023-01-20"),
    Animal(3, "Paco", "Tucano", 3, "Macho", 2, 2, 4, 3, "Em Observação", "2023-05-10"),
    Animal(4, "Rajah", "Tigre-de-bengala", 7, "Macho", 1, 1, 2, 1, "Ativo", "2024-08-01"),
    Animal(5, "Zola", "Zebra-da-planície", 4, "Fêmea", 1, 2, 1, 4, "Ativo", "2024-09-05"),
    Animal(6, "Naga", "Naja", 6, "Fêmea", 2, 2, 5, 1, "Em Observação", "2024-10-22")
  ]
}
